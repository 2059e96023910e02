// Merchant lookup through Redis, Postgres and legacy, with the fill lock and
// the negative cache, as a timed protocol. Times are nanoseconds.
module MerchantFill {
  import opened Common

  type Time = nat
  type Id = nat
  type Token = nat

  const MILLISECOND := 1_000_000
  const SECOND := 1_000_000_000
  const MERCHANT_TTL := 24 * 3600 * SECOND
  const MERCHANT_NEGATIVE_TTL := 10 * SECOND
  const MERCHANT_LOCK_TTL := 3 * SECOND
  const LEGACY_TIMEOUT := 2 * SECOND
  const LOCK_WAIT_TIMEOUT := 750 * MILLISECOND
  const LOCK_POLL_INTERVAL := 50 * MILLISECOND

  datatype Merchant = Merchant(id: Id, name: string)

  /******* Redis *******/

  datatype Lock = Lock(token: Token, expiry: Time)

  datatype Content = NotFound | Present(merchant: Merchant)

  datatype Entry = Entry(content: Content, expiry: Time)

  type Locks = map<Id, Lock>
  type Entries = map<Id, Entry>

  // A key is there until its time to live has passed.
  predicate Locked(locks: Locks, id: Id, now: Time) { id in locks && now < locks[id].expiry }

  // SET key token NX PX ttl.
  function SetNX(locks: Locks, id: Id, token: Token, ttl: nat, now: Time): Locks {
    if Locked(locks, id, now) then locks else locks[id := Lock(token, now + ttl)]
  }

  // Compare and delete.
  function ReleaseIfHeld(locks: Locks, id: Id, token: Token, now: Time): Locks {
    if Locked(locks, id, now) && locks[id].token == token then locks - {id} else locks
  }

  function Get(entries: Entries, id: Id, now: Time): Option<Content> {
    if id in entries && now < entries[id].expiry then Some(entries[id].content) else None
  }

  // A merchant is cached under its own identifier, whichever was asked for.
  function SetEntry(entries: Entries, id: Id, content: Content, now: Time): Entries {
    match content
    case Present(m) => entries[m.id := Entry(content, now + MERCHANT_TTL)]
    case NotFound => entries[id := Entry(content, now + MERCHANT_NEGATIVE_TTL)]
  }

  /******* Lookups *******/

  datatype Result = Found(merchant: Merchant) | NoRows | InProgress | Failed

  datatype Pc =
    | ReadCache
    | ReadDatabase
    | AcquireLock
    | Waiting(since: Time)
    | Holding(token: Token, acquiredAt: Time)
    | InLegacy(token: Token, deadline: Time)
    | Releasing(token: Token, result: Result)
    | Done(result: Result)

  datatype Lookup = Lookup(id: Id, pc: Pc)

  // An asynchronous cache write that has not happened yet.
  datatype Fill = Fill(id: Id, content: Content)

  datatype State = State(
    now: Time,
    locks: Locks,
    entries: Entries,
    database: map<Id, Merchant>,
    lookups: seq<Lookup>,
    fills: multiset<Fill>,
    nextToken: Token,
    denied: set<Id>,          // legacy has answered "not found" for these
    known: set<Merchant>)     // rows of the database, and answers of legacy

  datatype Step =
    | Tick(d: nat)
    | AddRow(merchant: Merchant)
    | Arrive(id: Id)
    | Break(p: nat)                          // the next call of lookup p fails
    | Advance(p: nat)                        // it succeeds
    | LegacyFinds(p: nat, merchant: Merchant)
    | LegacyDenies(p: nat)
    | LegacyFails(p: nat)                    // outage, timeout or open breaker
    | GiveUp(p: nat)                         // the wait budget is used up
    | Write(fill: Fill, ok: bool)

  function Initial(): State { State(0, map[], map[], map[], [], multiset{}, 0, {}, {}) }

  // The latest time by which a lookup moves on by itself: a legacy call is cut
  // off at its deadline, a waiter gives up when its budget is spent.
  predicate Urgent(l: Lookup, now: Time) {
    match l.pc
    case InLegacy(_, deadline) => now <= deadline
    case Waiting(since) => now <= since + LOCK_WAIT_TIMEOUT
    case _ => true
  }

  predicate Enabled(s: State, step: Step) {
    match step
    case Tick(d) => forall p :: 0 <= p < |s.lookups| ==> Urgent(s.lookups[p], s.now + d)
    case AddRow(m) => m.id !in s.database
    case Arrive(_) => true
    case Break(p) => p < |s.lookups| && !s.lookups[p].pc.Done? && !s.lookups[p].pc.InLegacy? && !s.lookups[p].pc.Holding?
    case Advance(p) => p < |s.lookups| && !s.lookups[p].pc.Done? && !s.lookups[p].pc.InLegacy?
    case LegacyFinds(p, _) => p < |s.lookups| && s.lookups[p].pc.InLegacy?
    case LegacyDenies(p) => p < |s.lookups| && s.lookups[p].pc.InLegacy?
    case LegacyFails(p) => p < |s.lookups| && s.lookups[p].pc.InLegacy?
    case GiveUp(p) => p < |s.lookups| && s.lookups[p].pc.Waiting? && s.now >= s.lookups[p].pc.since + LOCK_WAIT_TIMEOUT
    case Write(fill, _) => fill in s.fills
  }

  function Served(content: Content): Result {
    match content
    case NotFound => NoRows
    case Present(m) => Found(m)
  }

  // Steps taken by one lookup.
  predicate Acts(step: Step) {
    step.Break? || step.Advance? || step.LegacyFinds? || step.LegacyDenies? || step.LegacyFails? || step.GiveUp?
  }

  // Where the acting lookup stands afterwards. A failed cache read, database
  // read or lock attempt fails the lookup; a failed poll is reported as a
  // lookup in progress; a failed release is ignored.
  function Goto(s: State, step: Step): Pc
    requires Acts(step) && Enabled(s, step)
  {
    var l := s.lookups[step.p];
    match step
    case Break(_) =>
      if l.pc.Waiting? then Done(InProgress) else if l.pc.Releasing? then Done(l.pc.result) else Done(Failed)
    case LegacyFinds(_, m) => Releasing(l.pc.token, Found(m))
    case LegacyDenies(_) => Releasing(l.pc.token, NoRows)
    case LegacyFails(_) => Releasing(l.pc.token, Failed)
    case GiveUp(_) => Done(InProgress)
    case Advance(_) =>
      match l.pc
      case ReadCache =>
        (match Get(s.entries, l.id, s.now) case Some(content) => Done(Served(content)) case None => ReadDatabase)
      case ReadDatabase => if l.id in s.database then Done(Found(s.database[l.id])) else AcquireLock
      case AcquireLock => if Locked(s.locks, l.id, s.now) then Waiting(s.now) else Holding(s.nextToken, s.now)
      case Waiting(since) =>
        (match Get(s.entries, l.id, s.now) case Some(content) => Done(Served(content)) case None => l.pc)
      case Holding(token, _) => InLegacy(token, s.now + LEGACY_TIMEOUT)
      case Releasing(_, result) => Done(result)
  }

  // Locks after the step: taking one uses up a token, releasing compares it.
  predicate Locking(s: State, step: Step) {
    step.Advance? && step.p < |s.lookups| && s.lookups[step.p].pc.AcquireLock?
  }

  function NextLocks(s: State, step: Step): Locks
    requires Acts(step) && Enabled(s, step)
  {
    var l := s.lookups[step.p];
    if Locking(s, step) then SetNX(s.locks, l.id, s.nextToken, MERCHANT_LOCK_TTL, s.now)
    else if step.Advance? && l.pc.Releasing? then ReleaseIfHeld(s.locks, l.id, l.pc.token, s.now)
    else s.locks
  }

  // The cache write the step leaves behind for later.
  function NewFill(s: State, step: Step): Option<Fill>
    requires Acts(step) && Enabled(s, step)
  {
    var l := s.lookups[step.p];
    match step
    case LegacyFinds(_, m) => Some(Fill(l.id, Present(m)))
    case LegacyDenies(_) => Some(Fill(l.id, NotFound))
    case Advance(_) =>
      if l.pc.ReadDatabase? && l.id in s.database then Some(Fill(l.id, Present(s.database[l.id]))) else None
    case _ => None
  }

  function ActNext(s: State, step: Step): State
    requires Acts(step) && Enabled(s, step)
  {
    var l := s.lookups[step.p];
    s.(locks := NextLocks(s, step),
       lookups := s.lookups[step.p := l.(pc := Goto(s, step))],
       fills := if NewFill(s, step).Some? then s.fills + multiset{NewFill(s, step).value} else s.fills,
       nextToken := if Locking(s, step) then s.nextToken + 1 else s.nextToken,
       denied := if step.LegacyDenies? then s.denied + {l.id} else s.denied,
       known := if step.LegacyFinds? then s.known + {step.merchant} else s.known)
  }

  function Apply(s: State, step: Step): State
    requires Enabled(s, step)
  {
    match step
    case Tick(d) => s.(now := s.now + d)
    case AddRow(m) => s.(database := s.database[m.id := m], known := s.known + {m})
    case Arrive(id) => s.(lookups := s.lookups + [Lookup(id, ReadCache)])
    case Write(fill, ok) =>
      var s' := s.(fills := s.fills - multiset{fill});
      if ok then s'.(entries := SetEntry(s.entries, fill.id, fill.content, s.now)) else s'
    case _ => ActNext(s, step)
  }

  predicate Follows(s: State, step: Step, s': State) { Enabled(s, step) && s' == Apply(s, step) }

  // A run; states[k] is the state before steps[k].
  datatype Run = Run(states: seq<State>, steps: seq<Step>)

  ghost predicate ValidRun(r: Run) {
    && |r.states| == |r.steps| + 1
    && r.states[0] == Initial()
    && forall k :: 0 <= k < |r.steps| ==> StepAt(r, k)
  }

  predicate StepAt(r: Run, k: nat) {
    k < |r.steps| && k + 1 < |r.states| && Follows(r.states[k], r.steps[k], r.states[k + 1])
  }

  /******* At most one legacy lookup per merchant *******/

  // No holder takes longer than gap from taking the lock to starting its call.
  predicate Punctual(s: State, step: Step, gap: nat) {
    step.Advance? && step.p < |s.lookups| && s.lookups[step.p].pc.Holding? ==>
      s.now - s.lookups[step.p].pc.acquiredAt <= gap
  }

  ghost predicate PunctualRun(r: Run, gap: nat)
    requires ValidRun(r)
  {
    forall k :: 0 <= k < |r.steps| ==> Punctual(r.states[k], r.steps[k], gap)
  }

  predicate HasToken(pc: Pc) { pc.Holding? || pc.InLegacy? || pc.Releasing? }

  // Tokens are unique, and a lock that carries a token dates from the moment
  // its holder took it.
  ghost predicate TokensOk(s: State) {
    && (forall p :: 0 <= p < |s.lookups| && HasToken(s.lookups[p].pc) ==> s.lookups[p].pc.token < s.nextToken)
    && (forall id <- s.locks :: s.locks[id].token < s.nextToken)
    && (forall p, q :: 0 <= p < q < |s.lookups| && HasToken(s.lookups[p].pc) && HasToken(s.lookups[q].pc) ==>
          s.lookups[p].pc.token != s.lookups[q].pc.token)
    && (forall p :: 0 <= p < |s.lookups| && s.lookups[p].pc.Holding? ==> s.lookups[p].pc.acquiredAt <= s.now)
  }

  // A holder's lock, if it is still the one in Redis.
  ghost predicate OwnLockOk(s: State, p: nat)
    requires p < |s.lookups|
  {
    match s.lookups[p].pc
    case Holding(token, acquiredAt) =>
      s.now < acquiredAt + MERCHANT_LOCK_TTL ==>
        s.lookups[p].id in s.locks && s.locks[s.lookups[p].id] == Lock(token, acquiredAt + MERCHANT_LOCK_TTL)
    case InLegacy(token, deadline) =>
      && s.now <= deadline
      && s.lookups[p].id in s.locks && s.locks[s.lookups[p].id].token == token
      && deadline < s.locks[s.lookups[p].id].expiry
    case _ => true
  }

  ghost predicate LocksOk(s: State) { forall p :: 0 <= p < |s.lookups| ==> OwnLockOk(s, p) }

  // Tokens only ever come from the counter.
  lemma TokenShape(s: State, step: Step)
    requires Acts(step) && Enabled(s, step)
    ensures
      var pc, old_ := Goto(s, step), s.lookups[step.p].pc;
      && (HasToken(pc) ==> (HasToken(old_) && pc.token == old_.token) || (Locking(s, step) && pc.token == s.nextToken))
      && (pc.Holding? ==> pc.acquiredAt == s.now)
    ensures forall id <- NextLocks(s, step) ::
              (id in s.locks && NextLocks(s, step)[id] == s.locks[id]) ||
              (Locking(s, step) && NextLocks(s, step)[id].token == s.nextToken)
  {
  }

  lemma TokensStep(s: State, step: Step)
    requires TokensOk(s) && Enabled(s, step)
    ensures TokensOk(Apply(s, step))
  {
    if Acts(step) {
      TokensAct(s, step);
    } else {
      TokensOther(s, step);
    }
  }

  lemma TokensOther(s: State, step: Step)
    requires TokensOk(s) && Enabled(s, step) && !Acts(step)
    ensures TokensOk(Apply(s, step))
  {
    TokensSame(s, Apply(s, step));
  }

  // Time may pass and lookups may arrive.
  lemma TokensSame(s: State, s': State)
    requires TokensOk(s) && s'.locks == s.locks && s'.nextToken == s.nextToken && s.now <= s'.now
    requires s.lookups <= s'.lookups
    requires forall p :: |s.lookups| <= p < |s'.lookups| ==> s'.lookups[p].pc.ReadCache?
    ensures TokensOk(s')
  {
  }

  lemma TokensAct(s: State, step: Step)
    requires TokensOk(s) && Acts(step) && Enabled(s, step)
    ensures TokensOk(ActNext(s, step))
  {
    TokenShape(s, step);
    TokensAt(s, step.p, Goto(s, step), NextLocks(s, step), Locking(s, step), ActNext(s, step));
  }

  lemma TokensAt(s: State, p: nat, pc: Pc, locks: Locks, taking: bool, s': State)
    requires TokensOk(s) && p < |s.lookups|
    requires s'.lookups == s.lookups[p := s.lookups[p].(pc := pc)] && s'.locks == locks && s'.now == s.now
    requires s'.nextToken == if taking then s.nextToken + 1 else s.nextToken
    requires HasToken(pc) ==>
               (HasToken(s.lookups[p].pc) && pc.token == s.lookups[p].pc.token) || (taking && pc.token == s.nextToken)
    requires pc.Holding? ==> pc.acquiredAt == s.now
    requires forall id <- locks :: (id in s.locks && locks[id] == s.locks[id]) || (taking && locks[id].token == s.nextToken)
    ensures TokensOk(s')
  {
  }

  lemma OwnLockStep(s: State, step: Step, q: nat, gap: nat)
    requires TokensOk(s) && LocksOk(s) && Enabled(s, step) && Punctual(s, step, gap) && gap < MERCHANT_LOCK_TTL - LEGACY_TIMEOUT
    requires q < |Apply(s, step).lookups|
    ensures OwnLockOk(Apply(s, step), q)
  {
    if q < |s.lookups| {
      assert OwnLockOk(s, q);
      if Acts(step) {
        OwnLockAct(s, step, q, gap);
      } else {
        OwnLockOther(s, step, q);
      }
    }
  }

  lemma OwnLockOther(s: State, step: Step, q: nat)
    requires q < |s.lookups| && OwnLockOk(s, q) && Enabled(s, step) && !Acts(step)
    ensures OwnLockOk(Apply(s, step), q)
  {
    if step.Tick? {
      assert Urgent(s.lookups[q], s.now + step.d);
    }
  }

  lemma OwnLockAct(s: State, step: Step, q: nat, gap: nat)
    requires TokensOk(s) && LocksOk(s) && Acts(step) && Enabled(s, step) && Punctual(s, step, gap) && gap < MERCHANT_LOCK_TTL - LEGACY_TIMEOUT
    requires q < |s.lookups|
    ensures OwnLockOk(ActNext(s, step), q)
  {
    assert OwnLockOk(s, q) && OwnLockOk(s, step.p);
    if q == step.p {
      ActorLock(s, step, gap);
    } else {
      OtherLock(s, step, q);
    }
  }

  lemma ActorLock(s: State, step: Step, gap: nat)
    requires Acts(step) && Enabled(s, step) && Punctual(s, step, gap) && gap < MERCHANT_LOCK_TTL - LEGACY_TIMEOUT && OwnLockOk(s, step.p)
    requires s.lookups[step.p].pc.Holding? ==> s.lookups[step.p].pc.acquiredAt <= s.now
    ensures OwnLockOk(ActNext(s, step), step.p)
  {
  }

  // Another lookup's lock is neither replaced while it lives nor released.
  lemma OtherLock(s: State, step: Step, q: nat)
    requires TokensOk(s) && Acts(step) && Enabled(s, step) && q < |s.lookups| && q != step.p && OwnLockOk(s, q)
    ensures OwnLockOk(ActNext(s, step), q)
  {
    var l := s.lookups[q];
    LockKept(s, step, l.id);
  }

  lemma LockKept(s: State, step: Step, id: Id)
    requires Acts(step) && Enabled(s, step)
    ensures Locked(s.locks, id, s.now) &&
            !(s.lookups[step.p].pc.Releasing? && s.lookups[step.p].pc.token == s.locks[id].token) ==>
              id in NextLocks(s, step) && NextLocks(s, step)[id] == s.locks[id]
  {
  }

  lemma {:induction false} RunTokens(r: Run, n: nat)
    requires ValidRun(r) && n < |r.states|
    ensures TokensOk(r.states[n])
    decreases n
  {
    if n > 0 {
      RunTokens(r, n - 1);
      assert StepAt(r, n - 1);
      TokensStep(r.states[n - 1], r.steps[n - 1]);
    }
  }

  lemma {:induction false} RunLocks(r: Run, n: nat, gap: nat)
    requires ValidRun(r) && n < |r.states| && PunctualRun(r, gap) && gap < MERCHANT_LOCK_TTL - LEGACY_TIMEOUT
    ensures LocksOk(r.states[n])
    decreases n
  {
    if n > 0 {
      RunLocks(r, n - 1, gap);
      RunTokens(r, n - 1);
      assert StepAt(r, n - 1) && Punctual(r.states[n - 1], r.steps[n - 1], gap);
      forall q | 0 <= q < |r.states[n].lookups| ensures OwnLockOk(r.states[n], q) {
        OwnLockStep(r.states[n - 1], r.steps[n - 1], q, gap);
      }
    }
  }

  // While every holder starts its call in less than the lock's lifetime less
  // the call's own limit, no two legacy lookups of one merchant are ever in flight
  // together.
  lemma OneLegacyLookupAtATime(r: Run, n: nat, gap: nat)
    requires ValidRun(r) && n < |r.states| && PunctualRun(r, gap) && gap < MERCHANT_LOCK_TTL - LEGACY_TIMEOUT
    ensures forall p: nat, q: nat :: AskTogether(r.states[n], p, q) ==> p == q
  {
    RunTokens(r, n);
    RunLocks(r, n, gap);
    forall p: nat, q: nat | AskTogether(r.states[n], p, q) ensures p == q {
      assert OwnLockOk(r.states[n], p) && OwnLockOk(r.states[n], q);
    }
  }

  // Lookups p and q have a legacy call for the same merchant in flight.
  predicate AskTogether(s: State, p: nat, q: nat) {
    && p < |s.lookups| && q < |s.lookups| && s.lookups[p].id == s.lookups[q].id
    && s.lookups[p].pc.InLegacy? && s.lookups[q].pc.InLegacy?
  }

  // Some punctual run reaches the state.
  ghost predicate Reached(gap: nat, s: State) { exists r :: IsRunTo(r, gap, s) }

  ghost predicate IsRunTo(r: Run, gap: nat, s: State) {
    ValidRun(r) && PunctualRun(r, gap) && r.states[|r.steps|] == s
  }

  lemma Extend(gap: nat, s: State, step: Step, s': State)
    requires Reached(gap, s) && Follows(s, step, s') && Punctual(s, step, gap)
    ensures Reached(gap, s')
  {
    var r :| IsRunTo(r, gap, s);
    var more := Run(r.states + [s'], r.steps + [step]);
    forall k | 0 <= k < |more.steps| ensures StepAt(more, k) {
      if k < |r.steps| {
        assert StepAt(r, k);
      }
    }
    forall k | 0 <= k < |more.steps| ensures Punctual(more.states[k], more.steps[k], gap) {
      if k < |r.steps| {
        assert Punctual(r.states[k], r.steps[k], gap);
      }
    }
    assert IsRunTo(more, gap, s');
  }

  // Two lookups of merchant 1, and the locks, at a given time.
  function Two(now: Time, locks: Locks, first: Pc, second: Pc, nextToken: Token): State {
    State(now, locks, map[], map[], [Lookup(1, first), Lookup(1, second)], multiset{}, nextToken, {}, {})
  }

  lemma TwoArrive(gap: nat)
    ensures Reached(gap, Two(0, map[], ReadCache, ReadCache, 0))
  {
    assert IsRunTo(Run([Initial()], []), gap, Initial());
    var one := Initial().(lookups := [Lookup(1, ReadCache)]);
    Extend(gap, Initial(), Arrive(1), one);
    Extend(gap, one, Arrive(1), Two(0, map[], ReadCache, ReadCache, 0));
  }

  // Both have missed in the cache and in the database.
  lemma TwoMiss(gap: nat)
    ensures Reached(gap, Two(0, map[], AcquireLock, AcquireLock, 0))
  {
    TwoArrive(gap);
    var s1, s2 := Two(0, map[], ReadDatabase, ReadCache, 0), Two(0, map[], AcquireLock, ReadCache, 0);
    Extend(gap, Two(0, map[], ReadCache, ReadCache, 0), Advance(0), s1);
    Extend(gap, s1, Advance(0), s2);
    var s3 := Two(0, map[], AcquireLock, ReadDatabase, 0);
    Extend(gap, s2, Advance(1), s3);
    Extend(gap, s3, Advance(1), Two(0, map[], AcquireLock, AcquireLock, 0));
  }

  // The first takes the lock and starts its call late.
  lemma LateStart(gap: nat)
    ensures Reached(gap, Two(gap, map[1 := Lock(0, MERCHANT_LOCK_TTL)], InLegacy(0, gap + LEGACY_TIMEOUT), AcquireLock, 1))
  {
    TwoMiss(gap);
    var locks := map[1 := Lock(0, MERCHANT_LOCK_TTL)];
    var s1 := Two(0, locks, Holding(0, 0), AcquireLock, 1);
    Extend(gap, Two(0, map[], AcquireLock, AcquireLock, 0), Advance(0), s1);
    var s2 := Two(gap, locks, Holding(0, 0), AcquireLock, 1);
    Extend(gap, s1, Tick(gap), s2);
    Extend(gap, s2, Advance(0), Two(gap, locks, InLegacy(0, gap + LEGACY_TIMEOUT), AcquireLock, 1));
  }

  // The first one's lock runs out during its call.
  lemma LockRunsOut(gap: nat) returns (at: Time)
    requires gap >= MERCHANT_LOCK_TTL - LEGACY_TIMEOUT
    ensures at >= MERCHANT_LOCK_TTL
    ensures Reached(gap, Two(at, map[1 := Lock(0, MERCHANT_LOCK_TTL)], InLegacy(0, gap + LEGACY_TIMEOUT), AcquireLock, 1))
  {
    LateStart(gap);
    var calling, locks := InLegacy(0, gap + LEGACY_TIMEOUT), map[1 := Lock(0, MERCHANT_LOCK_TTL)];
    var rest := if gap < MERCHANT_LOCK_TTL then MERCHANT_LOCK_TTL - gap else 0;
    at := gap + rest;
    Extend(gap, Two(gap, locks, calling, AcquireLock, 1), Tick(rest), Two(at, locks, calling, AcquireLock, 1));
  }

  // The bound is exact: with any larger gap there is a run in which two
  // legacy lookups of one merchant are in flight together.
  lemma SlowHoldersOverlap(gap: nat) returns (s: State)
    requires gap >= MERCHANT_LOCK_TTL - LEGACY_TIMEOUT
    ensures Reached(gap, s) && AskTogether(s, 0, 1)
  {
    var at := LockRunsOut(gap);
    var calling, locks := InLegacy(0, gap + LEGACY_TIMEOUT), map[1 := Lock(0, MERCHANT_LOCK_TTL)];
    var again := map[1 := Lock(1, at + MERCHANT_LOCK_TTL)];
    var taken := Two(at, again, calling, Holding(1, at), 2);
    Extend(gap, Two(at, locks, calling, AcquireLock, 1), Advance(1), taken);
    s := Two(at, again, calling, InLegacy(1, at + LEGACY_TIMEOUT), 2);
    Extend(gap, taken, Advance(1), s);
  }

  // No release removes a lock that another lookup holds, even when the
  // releasing lookup's own lock has long expired.
  lemma ReleaseSparesOthers(r: Run, n: nat, p: nat, q: nat)
    requires ValidRun(r) && n < |r.steps| && r.steps[n] == Advance(p)
    requires p < |r.states[n].lookups| && r.states[n].lookups[p].pc.Releasing?
    requires p != q && HoldsLock(r.states[n], q)
    ensures HoldsLock(r.states[n + 1], q)
    ensures
      var id := r.states[n + 1].lookups[q].id;
      id == r.states[n].lookups[q].id && r.states[n + 1].locks[id] == r.states[n].locks[id]
  {
    RunTokens(r, n);
    assert StepAt(r, n);
    ReleaseCompares(r.states[n], p, q);
  }

  // The lock in Redis is the one that lookup q took.
  predicate HoldsLock(s: State, q: nat) {
    && q < |s.lookups| && HasToken(s.lookups[q].pc)
    && s.lookups[q].id in s.locks && s.locks[s.lookups[q].id].token == s.lookups[q].pc.token
  }

  lemma ReleaseCompares(s: State, p: nat, q: nat)
    requires TokensOk(s) && p < |s.lookups| && s.lookups[p].pc.Releasing? && p != q && HoldsLock(s, q)
    ensures HoldsLock(Apply(s, Advance(p)), q)
    ensures Apply(s, Advance(p)).locks[s.lookups[q].id] == s.locks[s.lookups[q].id]
  {
    assert s.lookups[p].pc.token != s.lookups[q].pc.token;
  }

  /******* Negative answers are authoritative *******/

  predicate ResultOk(s: State, id: Id, result: Result) {
    && (result.NoRows? ==> id in s.denied)
    && (result.Found? ==> result.merchant in s.known)
  }

  predicate ContentOk(s: State, id: Id, content: Content) {
    match content
    case NotFound => id in s.denied
    case Present(m) => m in s.known
  }

  ghost predicate AnswersOk(s: State) {
    && (forall p :: 0 <= p < |s.lookups| && s.lookups[p].pc.Releasing? ==> ResultOk(s, s.lookups[p].id, s.lookups[p].pc.result))
    && (forall p :: 0 <= p < |s.lookups| && s.lookups[p].pc.Done? ==> ResultOk(s, s.lookups[p].id, s.lookups[p].pc.result))
    && (forall id <- s.entries :: ContentOk(s, id, s.entries[id].content))
    && (forall f <- s.fills :: ContentOk(s, f.id, f.content))
    && (forall id <- s.database :: s.database[id] in s.known)
  }

  lemma AnswersStep(s: State, step: Step)
    requires AnswersOk(s) && Enabled(s, step)
    ensures AnswersOk(Apply(s, step))
  {
    if Acts(step) {
      AnswersAct(s, step);
    } else {
      AnswersOther(s, step);
    }
  }

  lemma AnswersOther(s: State, step: Step)
    requires AnswersOk(s) && Enabled(s, step) && !Acts(step)
    ensures AnswersOk(Apply(s, step))
  {
    if step.Write? {
      WriteAnswers(s, step.fill, step.ok);
    }
  }

  lemma WriteAnswers(s: State, fill: Fill, ok: bool)
    requires AnswersOk(s) && fill in s.fills
    ensures AnswersOk(Apply(s, Write(fill, ok)))
  {
    var s' := Apply(s, Write(fill, ok));
    assert ContentOk(s, fill.id, fill.content);
    forall f <- s'.fills ensures ContentOk(s', f.id, f.content) {
      assert f in s.fills;
    }
  }

  // What the acting lookup answers, and what it leaves to be cached, has a source.
  lemma AnswerShape(s: State, step: Step)
    requires AnswersOk(s) && Acts(step) && Enabled(s, step)
    ensures
      var s', id, pc := ActNext(s, step), s.lookups[step.p].id, Goto(s, step);
      && (pc.Releasing? || pc.Done? ==> ResultOk(s', id, pc.result))
      && (NewFill(s, step).Some? ==> ContentOk(s', NewFill(s, step).value.id, NewFill(s, step).value.content))
  {
    var l := s.lookups[step.p];
    if step.Advance? {
      ServedHasSource(s, l.id);
      if l.pc.Releasing? {
        assert ResultOk(s, l.id, l.pc.result);
      }
    }
  }

  // A cached answer, and a database row, has a source.
  lemma ServedHasSource(s: State, id: Id)
    requires AnswersOk(s)
    ensures Get(s.entries, id, s.now).Some? ==> ResultOk(s, id, Served(Get(s.entries, id, s.now).value))
    ensures id in s.database ==> s.database[id] in s.known
  {
    if id in s.entries {
      assert ContentOk(s, id, s.entries[id].content);
    }
  }

  lemma SourcesStay(s: State, step: Step)
    requires Acts(step) && Enabled(s, step)
    ensures s.denied <= ActNext(s, step).denied && s.known <= ActNext(s, step).known
  {
  }

  lemma AnswersAct(s: State, step: Step)
    requires AnswersOk(s) && Acts(step) && Enabled(s, step)
    ensures AnswersOk(ActNext(s, step))
  {
    AnswerShape(s, step);
    SourcesStay(s, step);
    AnswersAt(s, step.p, Goto(s, step), NewFill(s, step), ActNext(s, step));
  }

  lemma AnswersAt(s: State, p: nat, pc: Pc, fill: Option<Fill>, s': State)
    requires AnswersOk(s) && p < |s.lookups|
    requires s'.lookups == s.lookups[p := s.lookups[p].(pc := pc)] && s'.entries == s.entries && s'.database == s.database
    requires s'.fills == if fill.Some? then s.fills + multiset{fill.value} else s.fills
    requires s.denied <= s'.denied && s.known <= s'.known
    requires pc.Releasing? || pc.Done? ==> ResultOk(s', s.lookups[p].id, pc.result)
    requires fill.Some? ==> ContentOk(s', fill.value.id, fill.value.content)
    ensures AnswersOk(s')
  {
    forall f <- s'.fills ensures ContentOk(s', f.id, f.content) {
      assert f in s.fills || (fill.Some? && f == fill.value);
    }
  }

  lemma {:induction false} RunAnswers(r: Run, n: nat)
    requires ValidRun(r) && n < |r.states|
    ensures AnswersOk(r.states[n])
    decreases n
  {
    if n > 0 {
      RunAnswers(r, n - 1);
      assert StepAt(r, n - 1);
      AnswersStep(r.states[n - 1], r.steps[n - 1]);
    }
  }

  // "No such merchant" is answered only if legacy itself has said so of that
  // merchant: not because of an outage, an open breaker, a contended lock or a
  // database miss. A merchant is answered only as the database or legacy gave it.
  lemma AnswersAreAuthoritative(r: Run, n: nat, p: nat)
    requires ValidRun(r) && n < |r.states|
    requires p < |r.states[n].lookups| && r.states[n].lookups[p].pc.Done?
    ensures
      var s := r.states[n];
      var result := s.lookups[p].pc.result;
      && (result.NoRows? ==> s.lookups[p].id in s.denied)
      && (result.Found? ==> result.merchant in s.known)
  {
    RunAnswers(r, n);
  }

  // Where denials come from: one legacy answer about this very merchant.
  lemma {:induction false} DenialHasASource(r: Run, n: nat, id: Id) returns (k: nat)
    requires ValidRun(r) && n < |r.states| && id in r.states[n].denied
    ensures k < n && r.steps[k].LegacyDenies?
    ensures r.steps[k].p < |r.states[k].lookups| && r.states[k].lookups[r.steps[k].p].id == id
    decreases n
  {
    assert n > 0 && StepAt(r, n - 1);
    if id in r.states[n - 1].denied {
      k := DenialHasASource(r, n - 1, id);
    } else {
      DenialStep(r.states[n - 1], r.steps[n - 1], id);
      k := n - 1;
    }
  }

  lemma DenialStep(s: State, step: Step, id: Id)
    requires Enabled(s, step) && id !in s.denied && id in Apply(s, step).denied
    ensures step.LegacyDenies? && s.lookups[step.p].id == id
  {
  }

  // Waiters and legacy calls do not overstay.
  lemma {:induction false} NobodyOverstays(r: Run, n: nat, p: nat)
    requires ValidRun(r) && n < |r.states| && p < |r.states[n].lookups|
    ensures Urgent(r.states[n].lookups[p], r.states[n].now)
    decreases n
  {
    assert n > 0 && StepAt(r, n - 1);
    if p < |r.states[n - 1].lookups| {
      NobodyOverstays(r, n - 1, p);
    }
    UrgentStep(r.states[n - 1], r.steps[n - 1], p);
  }

  lemma UrgentStep(s: State, step: Step, p: nat)
    requires Enabled(s, step) && p < |Apply(s, step).lookups|
    requires p < |s.lookups| ==> Urgent(s.lookups[p], s.now)
    ensures Urgent(Apply(s, step).lookups[p], Apply(s, step).now)
  {
    if Acts(step) && step.p == p {
      UrgentGoto(s, step);
    }
  }

  lemma UrgentGoto(s: State, step: Step)
    requires Acts(step) && Enabled(s, step) && Urgent(s.lookups[step.p], s.now)
    ensures Urgent(s.lookups[step.p].(pc := Goto(s, step)), s.now)
  {
  }
}
