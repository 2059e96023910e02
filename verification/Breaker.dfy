// The circuit breaker around legacy merchant reads, with the clock explicit.
module Breaker {
  import opened Common
  import opened Division

  type Time = nat

  datatype Mode = Closed | Open | HalfOpen

  datatype Config = Config(failureThreshold: int, successThreshold: int, openTimeout: int)

  // The configuration a new breaker works with: unset values get defaults.
  function Normalize(cfg: Config): (n: Config)
    ensures n.failureThreshold >= 1 && n.successThreshold >= 1 && n.openTimeout >= 1
    ensures n.failureThreshold == cfg.failureThreshold || (cfg.failureThreshold <= 0 && n.failureThreshold == 3)
    ensures n.successThreshold == cfg.successThreshold || (cfg.successThreshold <= 0 && n.successThreshold == 1)
    ensures n.openTimeout == cfg.openTimeout || (cfg.openTimeout <= 0 && n.openTimeout == 5_000_000_000)
  {
    Config(if cfg.failureThreshold <= 0 then 3 else cfg.failureThreshold,
           if cfg.successThreshold <= 0 then 1 else cfg.successThreshold,
           if cfg.openTimeout <= 0 then 5_000_000_000 else cfg.openTimeout)
  }

  predicate Normal(cfg: Config) {
    cfg.failureThreshold >= 1 && cfg.successThreshold >= 1 && cfg.openTimeout >= 1
  }

  // openedAt is None until it is first written.
  datatype State = State(mode: Mode, failureCount: int, successCount: int, openedAt: Option<Time>)

  const FRESH := State(Closed, 0, 0, None)

  /******* The three critical sections *******/

  predicate Admits(cfg: Config, s: State, now: Time) {
    s.mode != Open || s.openedAt.None? || now - s.openedAt.value >= cfg.openTimeout
  }

  function Allow(cfg: Config, s: State, now: Time): State {
    if s.mode == Open && Admits(cfg, s, now) then s.(mode := HalfOpen, successCount := 0) else s
  }

  function Succeed(cfg: Config, s: State): State {
    if s.mode == HalfOpen then
      if s.successCount + 1 >= cfg.successThreshold then s.(mode := Closed, failureCount := 0, successCount := 0)
      else s.(successCount := s.successCount + 1)
    else s.(failureCount := 0)
  }

  predicate Opens(cfg: Config, s: State) { s.failureCount + 1 >= cfg.failureThreshold }

  function Fail(cfg: Config, s: State, now: Time): State {
    var counted := s.(failureCount := s.failureCount + 1);
    if Opens(cfg, s) then counted.(mode := Open, openedAt := Some(now), successCount := 0) else counted
  }

  /******* Sequential use: one call of Execute at a time *******/

  // One call: when it asked, when its operation ended, and how.
  datatype Attempt = Attempt(start: Time, end: Time, ok: bool)

  function Execute(cfg: Config, s: State, a: Attempt): State {
    if !Admits(cfg, s, a.start) then s
    else if a.ok then Succeed(cfg, Allow(cfg, s, a.start))
    else Fail(cfg, Allow(cfg, s, a.start), a.end)
  }

  function ExecuteAll(cfg: Config, s: State, attempts: seq<Attempt>): State
    decreases |attempts|
  {
    if |attempts| == 0 then s else ExecuteAll(cfg, Execute(cfg, s, attempts[0]), attempts[1..])
  }

  // How many of the operations are actually invoked.
  function Invoked(cfg: Config, s: State, attempts: seq<Attempt>): nat
    decreases |attempts|
  {
    if |attempts| == 0 then 0
    else (if Admits(cfg, s, attempts[0].start) then 1 else 0) + Invoked(cfg, Execute(cfg, s, attempts[0]), attempts[1..])
  }

  // Attempts follow each other in time and start within [from, to]; the last
  // one may still be running at the end.
  predicate InOrder(attempts: seq<Attempt>, from: Time, to: Time) {
    && from <= to
    && (|attempts| > 0 ==>
          && from <= attempts[0].start <= attempts[0].end
          && attempts[0].start <= to
          && (|attempts| > 1 ==> InOrder(attempts[1..], attempts[0].end, to)))
  }

  predicate AllFail(attempts: seq<Attempt>) { forall k :: 0 <= k < |attempts| ==> !attempts[k].ok }

  // What sequential use maintains: not closed means the threshold was reached.
  predicate SequentialOk(cfg: Config, s: State) {
    && s.failureCount >= 0
    && (s.mode == Closed ==> s.failureCount < cfg.failureThreshold)
    && (s.mode != Closed ==> s.failureCount >= cfg.failureThreshold)
    && (s.mode == Open ==> s.openedAt.Some?)
  }

  lemma {:induction false} SequentialKeeps(cfg: Config, s: State, attempts: seq<Attempt>)
    requires Normal(cfg) && SequentialOk(cfg, s)
    ensures SequentialOk(cfg, ExecuteAll(cfg, s, attempts))
    decreases |attempts|
  {
    if |attempts| > 0 {
      SequentialKeeps(cfg, Execute(cfg, s, attempts[0]), attempts[1..]);
    }
  }

  // In sequential use a failure while half open always reopens the breaker.
  lemma HalfOpenFailureReopens(cfg: Config, attempts: seq<Attempt>, last: Attempt)
    requires Normal(cfg)
    requires ExecuteAll(cfg, FRESH, attempts).mode == HalfOpen && !last.ok
    ensures Execute(cfg, ExecuteAll(cfg, FRESH, attempts), last).mode == Open
    ensures Execute(cfg, ExecuteAll(cfg, FRESH, attempts), last).openedAt == Some(last.end)
  {
    SequentialKeeps(cfg, FRESH, attempts);
  }

  // The most operations that failing calls can still get through by time end.
  function Budget(cfg: Config, s: State, now: Time, end: Time): int
    requires Normal(cfg) && now <= end
  {
    match s.mode
    case Closed => cfg.failureThreshold - s.failureCount + (end - now) / cfg.openTimeout
    case HalfOpen => 1 + (end - now) / cfg.openTimeout
    case Open =>
      var ready := if s.openedAt.Some? && s.openedAt.value + cfg.openTimeout > now then s.openedAt.value + cfg.openTimeout else now;
      if ready > end then 0 else 1 + (end - ready) / cfg.openTimeout
  }

  lemma JustOpened(cfg: Config, s: State, now: Time, end: Time)
    requires Normal(cfg) && now <= end && s.mode == Open && s.openedAt == Some(now)
    ensures Budget(cfg, s, now, end) == (end - now) / cfg.openTimeout
  {
    if now + cfg.openTimeout <= end {
      DivStep(end - now, cfg.openTimeout);
    } else {
      QuotientIs(end - now, cfg.openTimeout, 0, end - now);
    }
  }

  lemma FailingStep(cfg: Config, s: State, a: Attempt, now: Time, end: Time)
    requires Normal(cfg) && SequentialOk(cfg, s) && !a.ok
    requires now <= a.start <= a.end <= end
    ensures (if Admits(cfg, s, a.start) then 1 else 0) + Budget(cfg, Execute(cfg, s, a), a.end, end) <= Budget(cfg, s, now, end)
  {
    DivMonotone(end - a.end, end - now, cfg.openTimeout);
    var s' := Execute(cfg, s, a);
    if Admits(cfg, s, a.start) {
      if s'.mode == Open {
        JustOpened(cfg, s', a.end, end);
      }
      if s.mode == Open {
        var ready := s.openedAt.value + cfg.openTimeout;
        DivMonotone(end - a.end, end - (if ready > now then ready else now), cfg.openTimeout);
      }
    } else {
      var ready := s.openedAt.value + cfg.openTimeout;
      if ready <= end && a.end > ready {
        DivMonotone(end - a.end, end - ready, cfg.openTimeout);
      }
    }
  }

  // An operation that is let through is within the budget.
  lemma AdmittedPays(cfg: Config, s: State, a: Attempt, now: Time, end: Time)
    requires Normal(cfg) && SequentialOk(cfg, s) && now <= a.start <= end
    ensures (if Admits(cfg, s, a.start) then 1 else 0) <= Budget(cfg, s, now, end)
  {
    BudgetNonNegative(cfg, s, now, end);
    DivMonotone(0, end - now, cfg.openTimeout);
    assert 0 / cfg.openTimeout == 0;
    if s.mode == Open && Admits(cfg, s, a.start) {
      var ready := s.openedAt.value + cfg.openTimeout;
      DivMonotone(0, end - (if ready > now then ready else now), cfg.openTimeout);
    }
  }

  lemma {:induction false} FailingRun(cfg: Config, s: State, attempts: seq<Attempt>, now: Time, end: Time)
    requires Normal(cfg) && SequentialOk(cfg, s) && AllFail(attempts) && InOrder(attempts, now, end)
    ensures Invoked(cfg, s, attempts) <= Budget(cfg, s, now, end)
    decreases |attempts|
  {
    if |attempts| == 0 {
      BudgetNonNegative(cfg, s, now, end);
    } else if |attempts| == 1 {
      AdmittedPays(cfg, s, attempts[0], now, end);
      assert Invoked(cfg, Execute(cfg, s, attempts[0]), attempts[1..]) == 0;
    } else {
      var s' := Execute(cfg, s, attempts[0]);
      SequentialKeeps(cfg, s, attempts[..1]);
      assert ExecuteAll(cfg, s, attempts[..1]) == ExecuteAll(cfg, s', attempts[..1][1..]) == s';
      FailingRun(cfg, s', attempts[1..], attempts[0].end, end);
      FailingStep(cfg, s, attempts[0], now, end);
    }
  }

  lemma BudgetNonNegative(cfg: Config, s: State, now: Time, end: Time)
    requires Normal(cfg) && SequentialOk(cfg, s) && now <= end
    ensures Budget(cfg, s, now, end) >= 0
  {
    DivMonotone(0, end - now, cfg.openTimeout);
    assert 0 / cfg.openTimeout == 0;
  }

  // Load bound. Take any sequential run of Execute and any window of it, from
  // t0 to t1, in which every operation fails: whatever happened before, at
  // most failureThreshold + (t1 - t0) / openTimeout operations are invoked
  // within it, one that is still running at its end included.
  lemma LoadBound(cfg: Config, before: seq<Attempt>, window: seq<Attempt>, t0: Time, t1: Time)
    requires Normal(cfg) && AllFail(window) && InOrder(window, t0, t1)
    ensures Invoked(cfg, ExecuteAll(cfg, FRESH, before), window) <= cfg.failureThreshold + (t1 - t0) / cfg.openTimeout
  {
    var s := ExecuteAll(cfg, FRESH, before);
    SequentialKeeps(cfg, FRESH, before);
    FailingRun(cfg, s, window, t0, t1);
    if s.mode == Open {
      var ready := if s.openedAt.value + cfg.openTimeout > t0 then s.openedAt.value + cfg.openTimeout else t0;
      if ready <= t1 {
        DivMonotone(t1 - ready, t1 - t0, cfg.openTimeout);
      } else {
        DivMonotone(0, t1 - t0, cfg.openTimeout);
        assert 0 / cfg.openTimeout == 0;
      }
    }
  }

  /******* Concurrent use: the critical sections in any order *******/

  datatype Op = Ask(at: Time) | Success(at: Time) | Failure(at: Time)

  function Do(cfg: Config, s: State, op: Op): State {
    match op
    case Ask(at) => Allow(cfg, s, at)
    case Success(_) => Succeed(cfg, s)
    case Failure(at) => Fail(cfg, s, at)
  }

  function DoAll(cfg: Config, ops: seq<Op>): State {
    if |ops| == 0 then FRESH else Do(cfg, DoAll(cfg, ops[..|ops| - 1]), ops[|ops| - 1])
  }

  // The mutex orders the sections, and the clock does not run backwards.
  predicate Timed(ops: seq<Op>) { forall i, j :: 0 <= i < j < |ops| ==> ops[i].at <= ops[j].at }

  // Reference count: failures recorded since the last recorded success.
  function FailuresSinceSuccess(ops: seq<Op>): nat {
    if |ops| == 0 || ops[|ops| - 1].Success? then 0
    else FailuresSinceSuccess(ops[..|ops| - 1]) + if ops[|ops| - 1].Failure? then 1 else 0
  }

  predicate ConcurrentOk(cfg: Config, s: State) {
    && s.failureCount >= 0
    && (s.mode == Closed ==> s.failureCount < cfg.failureThreshold && s.successCount == 0)
    && (s.mode == Open ==> s.successCount == 0 && s.openedAt.Some?)
    && (s.mode == HalfOpen ==> 0 <= s.successCount < cfg.successThreshold && s.openedAt.Some?)
  }

  // Whatever the interleaving, even with results that arrive late.
  lemma {:induction false} ConcurrentInvariant(cfg: Config, ops: seq<Op>)
    requires Normal(cfg)
    ensures ConcurrentOk(cfg, DoAll(cfg, ops))
    ensures DoAll(cfg, ops).mode == Closed ==> DoAll(cfg, ops).failureCount == FailuresSinceSuccess(ops)
    decreases |ops|
  {
    if |ops| > 0 {
      ConcurrentInvariant(cfg, ops[..|ops| - 1]);
    }
  }

  // The breaker opens from closed exactly on the failure that completes the
  // threshold since the last success.
  lemma OpensAtThreshold(cfg: Config, ops: seq<Op>, at: Time)
    requires Normal(cfg) && DoAll(cfg, ops).mode == Closed
    ensures DoAll(cfg, ops + [Failure(at)]).mode == Open <==> FailuresSinceSuccess(ops + [Failure(at)]) == cfg.failureThreshold
  {
    ConcurrentInvariant(cfg, ops);
    assert (ops + [Failure(at)])[..|ops|] == ops;
  }

  // openedAt never moves back, and for one timeout after it the mode is Open.
  lemma {:induction false} OpenWindow(cfg: Config, ops: seq<Op>, i: nat)
    requires Normal(cfg) && Timed(ops) && i < |ops| && ops[i].Failure? && Opens(cfg, DoAll(cfg, ops[..i]))
    ensures
      var s := DoAll(cfg, ops);
      && s.openedAt.Some? && ops[i].at <= s.openedAt.value <= ops[|ops| - 1].at
      && (ops[|ops| - 1].at < s.openedAt.value + cfg.openTimeout ==> s.mode == Open)
    decreases |ops|
  {
    var n := |ops| - 1;
    ConcurrentInvariant(cfg, ops[..n]);
    if i < n {
      assert ops[..n][..i] == ops[..i];
      OpenWindow(cfg, ops[..n], i);
      assert ops[n - 1].at <= ops[n].at;
    }
  }

  // Nothing is admitted during the timeout that follows an opening failure.
  lemma NothingAdmittedWhileOpen(cfg: Config, ops: seq<Op>, i: nat, at: Time)
    requires Normal(cfg) && Timed(ops + [Ask(at)])
    requires i < |ops| && ops[i].Failure? && Opens(cfg, DoAll(cfg, ops[..i]))
    requires at < ops[i].at + cfg.openTimeout
    ensures !Admits(cfg, DoAll(cfg, ops), at)
    ensures DoAll(cfg, ops + [Ask(at)]) == DoAll(cfg, ops)
  {
    forall x, y | 0 <= x < y < |ops| ensures ops[x].at <= ops[y].at {
      assert (ops + [Ask(at)])[x] == ops[x] && (ops + [Ask(at)])[y] == ops[y];
    }
    OpenWindow(cfg, ops, i);
    assert (ops + [Ask(at)])[|ops| - 1].at <= (ops + [Ask(at)])[|ops|].at;
    assert (ops + [Ask(at)])[..|ops|] == ops;
  }

  // With concurrent callers a half-open failure need not reopen the breaker:
  // three calls are let in, two fail, and the third's success arrives late,
  // while Open, where it zeroes the failure count.
  lemma LateSuccessDefeatsReopening()
    ensures
      var cfg := Config(2, 1, 10);
      var late := [Ask(0), Ask(0), Ask(0), Failure(0), Failure(0), Success(1), Ask(10)];
      && Timed(late + [Failure(10)])
      && (forall k :: 0 <= k < 3 ==> Admits(cfg, DoAll(cfg, late[..k]), 0))
      && Admits(cfg, DoAll(cfg, late[..6]), 10)
      && DoAll(cfg, late).mode == HalfOpen
      && DoAll(cfg, late + [Failure(10)]).mode == HalfOpen
  {
    var cfg := Config(2, 1, 10);
    var late := [Ask(0), Ask(0), Ask(0), Failure(0), Failure(0), Success(1), Ask(10)];
    assert late[..0] == [];
    DoNext(cfg, late, 0);
    DoNext(cfg, late, 1);
    DoNext(cfg, late, 2);
    assert DoAll(cfg, late[..3]) == FRESH;
    DoNext(cfg, late, 3);
    assert DoAll(cfg, late[..4]) == State(Closed, 1, 0, None);
    DoNext(cfg, late, 4);
    assert DoAll(cfg, late[..5]) == State(Open, 2, 0, Some(0));
    DoNext(cfg, late, 5);
    assert DoAll(cfg, late[..6]) == State(Open, 0, 0, Some(0));
    DoNext(cfg, late, 6);
    assert late[..7] == late && DoAll(cfg, late) == State(HalfOpen, 0, 0, Some(0));
    assert (late + [Failure(10)])[..7] == late;
  }

  lemma DoNext(cfg: Config, ops: seq<Op>, k: nat)
    requires k < |ops|
    ensures DoAll(cfg, ops[..k + 1]) == Do(cfg, DoAll(cfg, ops[..k]), ops[k])
  {
    assert ops[..k + 1][..k] == ops[..k];
  }

  // Failures recorded since the count was last set to zero: by a success that
  // found the breaker closed or open, or by the success that closed it.
  function FailuresSinceReset(cfg: Config, ops: seq<Op>): nat {
    if |ops| == 0 then 0
    else
      var before := ops[..|ops| - 1];
      var last := ops[|ops| - 1];
      if last.Success? && (DoAll(cfg, before).mode != HalfOpen || DoAll(cfg, ops).mode == Closed) then 0
      else FailuresSinceReset(cfg, before) + if last.Failure? then 1 else 0
  }

  // A half-open failure reopens the breaker if and only if, with it, the
  // failures since the last reset reach the threshold.
  lemma {:induction false} HalfOpenReopensExactly(cfg: Config, ops: seq<Op>, at: Time)
    requires Normal(cfg) && DoAll(cfg, ops).mode == HalfOpen
    ensures DoAll(cfg, ops + [Failure(at)]).mode == Open <==> FailuresSinceReset(cfg, ops) + 1 >= cfg.failureThreshold
  {
    CountSinceReset(cfg, ops);
    assert (ops + [Failure(at)])[..|ops|] == ops;
  }

  lemma {:induction false} CountSinceReset(cfg: Config, ops: seq<Op>)
    ensures DoAll(cfg, ops).failureCount == FailuresSinceReset(cfg, ops)
    decreases |ops|
  {
    if |ops| > 0 {
      CountSinceReset(cfg, ops[..|ops| - 1]);
    }
  }

  /******* When the mode changes, by what has been recorded *******/

  // Successes recorded since the current half-open period began, which it does
  // with the request that found the breaker open and left it half open.
  function SuccessesInPeriod(cfg: Config, ops: seq<Op>): nat {
    if |ops| == 0 then 0
    else
      var before, last := ops[..|ops| - 1], ops[|ops| - 1];
      if last.Ask? && DoAll(cfg, before).mode == Open && DoAll(cfg, ops).mode == HalfOpen then 0
      else SuccessesInPeriod(cfg, before) + if last.Success? then 1 else 0
  }

  lemma {:induction false} CountInPeriod(cfg: Config, ops: seq<Op>)
    requires Normal(cfg)
    ensures DoAll(cfg, ops).mode == HalfOpen ==> DoAll(cfg, ops).successCount == SuccessesInPeriod(cfg, ops)
    decreases |ops|
  {
    if |ops| > 0 {
      CountInPeriod(cfg, ops[..|ops| - 1]);
    }
  }

  // A success closes the half-open breaker exactly when it completes the
  // success threshold of its period; closing clears the failure count. A
  // success never changes the mode otherwise.
  lemma ClosesExactly(cfg: Config, ops: seq<Op>, at: Time)
    requires Normal(cfg)
    ensures
      var before, after := DoAll(cfg, ops), DoAll(cfg, ops + [Success(at)]);
      && (before.mode == HalfOpen ==>
            && SuccessesInPeriod(cfg, ops) < cfg.successThreshold
            && (after.mode == Closed <==> SuccessesInPeriod(cfg, ops) + 1 == cfg.successThreshold)
            && (after.mode == HalfOpen <==> SuccessesInPeriod(cfg, ops) + 1 < cfg.successThreshold))
      && (before.mode == HalfOpen && after.mode == Closed ==> after.failureCount == 0)
      && (before.mode != HalfOpen ==> after.mode == before.mode && after.failureCount == 0)
  {
    ConcurrentInvariant(cfg, ops);
    CountInPeriod(cfg, ops);
    assert (ops + [Success(at)])[..|ops|] == ops;
  }

  // The last failure that brought the count since the last reset to the
  // threshold.
  function LastOpening(cfg: Config, ops: seq<Op>): Option<Time> {
    if |ops| == 0 then None
    else
      var last := ops[|ops| - 1];
      if last.Failure? && FailuresSinceReset(cfg, ops) >= cfg.failureThreshold then Some(last.at)
      else LastOpening(cfg, ops[..|ops| - 1])
  }

  lemma {:induction false} OpenedAtExactly(cfg: Config, ops: seq<Op>)
    ensures DoAll(cfg, ops).openedAt == LastOpening(cfg, ops)
    decreases |ops|
  {
    CountSinceReset(cfg, ops);
    if |ops| > 0 {
      OpenedAtExactly(cfg, ops[..|ops| - 1]);
      CountSinceReset(cfg, ops[..|ops| - 1]);
    }
  }

  // A request is turned away exactly while the breaker is open and less than
  // the timeout has passed since the last opening failure. One that is let in
  // while open starts a half-open period; no other request changes the mode.
  lemma AdmitsExactly(cfg: Config, ops: seq<Op>, at: Time)
    requires Normal(cfg)
    ensures
      var before, after := DoAll(cfg, ops), DoAll(cfg, ops + [Ask(at)]);
      && (before.mode == Open ==> LastOpening(cfg, ops).Some?)
      && (Admits(cfg, before, at) <==> before.mode != Open || at >= LastOpening(cfg, ops).value + cfg.openTimeout)
      && (after.mode == if before.mode == Open && Admits(cfg, before, at) then HalfOpen else before.mode)
  {
    ConcurrentInvariant(cfg, ops);
    OpenedAtExactly(cfg, ops);
    assert (ops + [Ask(at)])[..|ops|] == ops;
  }

  // In sequential use, an open breaker that has waited its timeout lets every
  // call in, and closes on the last of successThreshold successes in a row,
  // not before.
  lemma {:induction false} SuccessesClose(cfg: Config, s: State, attempts: seq<Attempt>)
    requires Normal(cfg) && |attempts| > 0
    requires s.mode == Open && s.openedAt.Some?
    requires forall k :: 0 <= k < |attempts| ==> attempts[k].ok && attempts[k].start >= s.openedAt.value + cfg.openTimeout
    requires |attempts| <= cfg.successThreshold
    ensures Invoked(cfg, s, attempts) == |attempts|
    ensures
      var after := ExecuteAll(cfg, s, attempts);
      if |attempts| == cfg.successThreshold then after.mode == Closed && after.failureCount == 0
      else after.mode == HalfOpen
  {
    assert Execute(cfg, s, attempts[0]) == Succeed(cfg, s.(mode := HalfOpen, successCount := 0));
    if cfg.successThreshold > 1 {
      HalfOpenCounts(cfg, Execute(cfg, s, attempts[0]), attempts[1..]);
    } else {
      assert attempts[1..] == [];
    }
  }

  lemma {:induction false} HalfOpenCounts(cfg: Config, s: State, attempts: seq<Attempt>)
    requires Normal(cfg) && s.mode == HalfOpen && 0 < s.successCount < cfg.successThreshold
    requires forall k :: 0 <= k < |attempts| ==> attempts[k].ok
    requires s.successCount + |attempts| <= cfg.successThreshold
    ensures Invoked(cfg, s, attempts) == |attempts|
    ensures
      var after := ExecuteAll(cfg, s, attempts);
      if s.successCount + |attempts| == cfg.successThreshold then after.mode == Closed && after.failureCount == 0
      else after.mode == HalfOpen && after.successCount == s.successCount + |attempts|
    decreases |attempts|
  {
    if |attempts| > 0 {
      if s.successCount + 1 < cfg.successThreshold {
        HalfOpenCounts(cfg, Execute(cfg, s, attempts[0]), attempts[1..]);
      } else {
        assert attempts[1..] == [];
      }
    }
  }

  /******* The breaker object *******/

  datatype Outcome<T> = Rejected | OperationFailed | Returned(value: T)

  class CircuitBreaker {
    var state: Mode
    var failureCount: int
    var successCount: int
    var openedAt: Option<Time>
    const cfg: Config

    function Snapshot(): State
      reads this
    {
      State(state, failureCount, successCount, openedAt)
    }

    constructor (config: Config)
      ensures Snapshot() == FRESH && cfg == Normalize(config)
    {
      state, failureCount, successCount, openedAt := Closed, 0, 0, None;
      cfg := Normalize(config);
    }

    method AllowRequest(now: Time) returns (ok: bool)
      modifies this
      ensures ok == Admits(cfg, old(Snapshot()), now)
      ensures Snapshot() == Allow(cfg, old(Snapshot()), now)
      ensures old(state) != Open ==> ok && state == old(state) && successCount == old(successCount)
      ensures old(state) == Open && ok ==> state == HalfOpen && successCount == 0
      ensures old(state) == Open && !ok ==> state == Open && openedAt.Some? && now < openedAt.value + cfg.openTimeout
      ensures failureCount == old(failureCount) && openedAt == old(openedAt)
    {
      if state != Open {
        return true;
      }
      if openedAt.None? || now - openedAt.value >= cfg.openTimeout {
        state := HalfOpen;
        successCount := 0;
        return true;
      }
      return false;
    }

    method RecordSuccess()
      modifies this
      ensures Snapshot() == Succeed(cfg, old(Snapshot()))
      ensures old(state) == HalfOpen && old(successCount) + 1 >= cfg.successThreshold ==>
                state == Closed && failureCount == 0 && successCount == 0
      ensures old(state) == HalfOpen && old(successCount) + 1 < cfg.successThreshold ==>
                state == HalfOpen && failureCount == old(failureCount) && successCount == old(successCount) + 1
      ensures old(state) != HalfOpen ==> state == old(state) && failureCount == 0 && successCount == old(successCount)
      ensures openedAt == old(openedAt)
    {
      if state == HalfOpen {
        successCount := successCount + 1;
        if successCount >= cfg.successThreshold {
          state := Closed;
          failureCount := 0;
          successCount := 0;
        }
        return;
      }
      failureCount := 0;
    }

    method RecordFailure(now: Time)
      modifies this
      ensures Snapshot() == Fail(cfg, old(Snapshot()), now)
      ensures failureCount == old(failureCount) + 1
      ensures failureCount >= cfg.failureThreshold ==> state == Open && openedAt == Some(now) && successCount == 0
      ensures failureCount < cfg.failureThreshold ==>
                state == old(state) && openedAt == old(openedAt) && successCount == old(successCount)
    {
      failureCount := failureCount + 1;
      if failureCount >= cfg.failureThreshold {
        state := Open;
        openedAt := Some(now);
        successCount := 0;
      }
    }

    // ExecuteWithValue; Execute is the case of a value that carries nothing.
    // result is what the operation would answer if invoked, and end when.
    method ExecuteWithValue<T>(start: Time, end: Time, result: Option<T>) returns (outcome: Outcome<T>)
      modifies this
      ensures Snapshot() == Execute(cfg, old(Snapshot()), Attempt(start, end, result.Some?))
      ensures outcome.Rejected? <==> !Admits(cfg, old(Snapshot()), start)
      ensures outcome.Returned? ==> result == Some(outcome.value)
      ensures outcome.OperationFailed? ==> result.None?
    {
      var ok := AllowRequest(start);
      if !ok {
        return Rejected;
      }
      match result {
        case None =>
          RecordFailure(end);
          return OperationFailed;
        case Some(value) =>
          RecordSuccess();
          return Returned(value);
      }
    }
  }
}
