// What every step of the pipeline keeps, and the safety theorems over runs.
module PipelineSafety {
  import opened Common
  import opened Backoff
  import opened Headers
  import opened Pipeline
  import opened PipelineRuns

  /******* The invariant, table by table *******/

  ghost predicate IsTerminal(s: State, tx: TxId) {
    tx < |s.rows| && |s.rows[tx].versions| > 0 && Terminal(Current(s.rows[tx]).status)
  }

  // The entry shows some past (or the present) version of its row.
  ghost predicate Past(s: State, e: Entry) {
    && e.tx < |s.rows|
    && exists k :: 0 <= k < |s.rows[e.tx].versions| && e == EntryOf(e.tx, s.rows[e.tx], s.rows[e.tx].versions[k])
  }

  // The first version of a row is PROCESSING and every later one is terminal.
  ghost predicate VersionsOk(versions: seq<Version>) {
    && |versions| > 0
    && versions[0].status == Processing
    && forall k :: 1 <= k < |versions| ==> Terminal(versions[k].status)
  }

  // Account numbers are unique, and a number keeps its account.
  ghost predicate IsAccount(s: State, number: string, account: nat) {
    number in s.accounts && s.accounts[number] == account
  }

  ghost predicate RowOk(s: State, t: TxId)
    requires t < |s.rows|
  {
    var row := s.rows[t];
    && VersionsOk(row.versions)
    && row.owner < |s.intakes|
    && row.key == s.intakes[row.owner].request.key
    && row.amount == s.intakes[row.owner].request.amount
    && row.merchant.Some? == s.intakes[row.owner].request.QrisRequest?
    && IsAccount(s, s.intakes[row.owner].request.accountNumber, row.account)
    && (row.birth.Some? ==> row.birth.value.at <= s.now)
  }

  // The creation event is the first event, and the only one of its kind.
  ghost predicate CreatedFirst(events: seq<Event>, request: Request) {
    && |events| > 0
    && events[0] == CreatedEvent(request)
    && forall k :: 1 <= k < |events| ==> events[k].kind != TransferCreated && events[k].kind != QrisCreated
  }

  ghost predicate EventsOk(s: State, t: TxId)
    requires t < |s.rows| && s.rows[t].owner < |s.intakes|
  {
    var row := s.rows[t];
    if row.events == [] then row.birth.None? else CreatedFirst(row.events, s.intakes[row.owner].request)
  }

  // The row's own columns agree with the request.
  ghost predicate RowMatches(s: State, tx: TxId, request: Request)
    requires tx < |s.rows|
  {
    && IsAccount(s, request.accountNumber, s.rows[tx].account)
    && s.rows[tx].amount == request.amount
    && s.rows[tx].merchant.Some? == request.QrisRequest?
  }

  predicate SameDestination(a: Request, b: Request) {
    a.TransferRequest? && b.TransferRequest? && a.toAccount == b.toAccount
  }

  // What an intake call's program point promises.
  ghost predicate IntakeStands(s: State, i: nat, request: Request, pc: IntakePc) {
    && (RefersToRow(pc) ==> pc.tx < |s.rows|)
    && (Owning(pc) ==> s.rows[pc.tx].owner == i)
    && (pc.WriteCreated? ==> s.rows[pc.tx].birth.None? && |s.rows[pc.tx].versions| == 1 && s.rows[pc.tx].events == [])
    && (pc.CacheNew? || pc.Publish? || pc.CompensateRow? ==>
          s.rows[pc.tx].birth.None? && |s.rows[pc.tx].versions| == 1 && s.rows[pc.tx].events != [])
    && (pc.CompensateCache? || pc.CompensateEvent? ==> s.rows[pc.tx].birth.None? && s.rows[pc.tx].events != [])
    && (pc.CompensateCache? ==> pc.entry.tx == pc.tx && Past(s, pc.entry) && Terminal(pc.entry.status))
    && (pc.WriteEnqueued? ==> s.rows[pc.tx].birth.Some?)
    && (pc.Insert? ==> pc.merchant.Some? == request.QrisRequest?)
    && (pc.ResolveMerchant? || pc.ResolveForReplay? ==> request.QrisRequest?)
    && (pc.ListEvents? ==> request.TransferRequest?)
    && (pc.ResolveMerchant? || pc.ResolveForReplay? || pc.Insert? ==> IsAccount(s, request.accountNumber, pc.account))
    && (pc.LoadForReplay? || pc.ResolveForReplay? || pc.ListEvents? ==> s.rows[pc.tx].key == request.key)
    && (pc.ListEvents? ==> RowMatches(s, pc.tx, request))
    && (pc.Done? && pc.outcome.Conflict? ==> request.accountNumber in s.accounts)
    && (pc.Done? && pc.outcome.Replayed? ==>
          && pc.outcome.tx < |s.rows| && s.rows[pc.outcome.tx].key == request.key
          && RowMatches(s, pc.outcome.tx, request) && s.rows[pc.outcome.tx].merchant == pc.outcome.merchant
          && s.rows[pc.outcome.tx].owner < |s.intakes|
          && (request.TransferRequest? ==> SameDestination(s.intakes[s.rows[pc.outcome.tx].owner].request, request)))
    && (pc.Done? && pc.outcome.Created? ==>
          pc.outcome.tx < |s.rows| && s.rows[pc.outcome.tx].owner == i && s.rows[pc.outcome.tx].birth.Some?)
  }

  ghost predicate IntakeOk(s: State, i: nat)
    requires i < |s.intakes|
  {
    IntakeStands(s, i, s.intakes[i].request, s.intakes[i].pc)
  }

  function Retries(msg: Message): int { RetryCount(msg.headers) }

  ghost predicate MessageOk(cfg: Config, s: State, msg: Message) {
    msg.body.Job? ==>
      var tx := msg.body.tx;
      && tx < |s.rows|
      && s.rows[tx].birth.Some?
      && s.rows[tx].owner < |s.intakes|
      && msg.body == Job(tx, s.rows[tx].account, s.rows[tx].merchant, s.intakes[s.rows[tx].owner].request)
      && FIRST_ENQUEUED_AT in msg.headers && msg.headers[FIRST_ENQUEUED_AT] == Stamp(s.rows[tx].birth.value.at)
      && 0 <= Retries(msg) <= MaxAttempts(cfg)
  }

  // The earliest time at which a copy with this many retries can be ready.
  ghost function ReadyFrom(cfg: Config, s: State, msg: Message): nat
    requires MessageOk(cfg, s, msg) && msg.body.Job?
  {
    s.rows[msg.body.tx].birth.value.at + TotalBackoff(cfg, Retries(msg))
  }

  ghost predicate CopyOk(cfg: Config, s: State, c: nat)
    requires c < |s.copies|
  {
    var copy := s.copies[c];
    && MessageOk(cfg, s, copy.msg)
    && (copy.place.Unacked? ==>
          var w := copy.place.worker; w < |s.workers| && s.workers[w].copy == c && s.workers[w].attached)
    && (copy.msg.body.Job? ==>
          && ReadyFrom(cfg, s, copy.msg) <= (if copy.place.Retry? then copy.place.due else s.now)
          && (copy.place.Dead? ==> IsTerminal(s, copy.msg.body.tx) || Retries(copy.msg) == MaxAttempts(cfg)))
  }

  ghost predicate AfterUpdate(pc: WorkerPc) {
    pc.CacheResult? || pc.DropBalance? || pc.FinalEvent? || pc.AckDone? || pc.RejectDone?
  }

  // What a worker's program point promises.
  ghost predicate WorkerStands(cfg: Config, s: State, msg: Message, pc: WorkerPc) {
    && (!pc.Decode? && !pc.RejectBad? && !pc.Finished? ==> msg.body.Job?)
    && (pc.RejectBad? ==> msg.body.Undecodable?)
    && (pc.CacheResult? ==> pc.entry.tx == msg.body.tx && Past(s, pc.entry) && Terminal(pc.entry.status))
    && (AfterUpdate(pc) ==> IsTerminal(s, msg.body.tx))
    && (pc.RejectSpent? ==> Retries(msg) == MaxAttempts(cfg))
    && (pc.PublishRetry? || pc.AckRetried? ==> Retries(msg) < MaxAttempts(cfg))
  }

  ghost predicate WorkerOk(cfg: Config, s: State, w: nat)
    requires w < |s.workers|
  {
    var worker := s.workers[w];
    && worker.copy < |s.copies|
    && worker.msg == s.copies[worker.copy].msg
    && (worker.attached ==> s.copies[worker.copy].place == Unacked(w))
    && WorkerStands(cfg, s, worker.msg, worker.pc)
  }

  ghost predicate CacheOk(s: State) {
    && (forall tx <- s.cache :: s.cache[tx].tx == tx && Past(s, s.cache[tx]))
    && (forall e <- s.fills :: Past(s, e))
  }

  ghost predicate KeysOk(s: State) {
    forall t, u :: 0 <= t < u < |s.rows| ==> s.rows[t].key != s.rows[u].key
  }

  // A copy whose retry is already published and which is about to be acked.
  ghost predicate Spent(s: State, c: nat)
    requires c < |s.copies|
  {
    s.copies[c].place.Unacked? && s.copies[c].place.worker < |s.workers| &&
    s.workers[s.copies[c].place.worker].pc.AckRetried?
  }

  ghost predicate Holds(s: State, c: nat, tx: TxId) {
    c < |s.copies| && s.copies[c].msg.body.Job? && s.copies[c].msg.body.tx == tx &&
    !s.copies[c].place.Gone? && !Spent(s, c)
  }

  // A published transaction is terminal or some live copy still carries it.
  ghost predicate Kept(s: State, tx: TxId) {
    IsTerminal(s, tx) || exists c :: Holds(s, c, tx)
  }

  ghost predicate PublishesOk(s: State, t: TxId)
    requires t < |s.rows|
  {
    Count(s.publishes, t) == if s.rows[t].birth.Some? then 1 else 0
  }

  ghost predicate Structure(cfg: Config, s: State) {
    && (forall t :: 0 <= t < |s.rows| ==> RowOk(s, t) && EventsOk(s, t))
    && (forall i :: 0 <= i < |s.intakes| ==> IntakeOk(s, i))
    && (forall c :: 0 <= c < |s.copies| ==> CopyOk(cfg, s, c))
    && (forall w :: 0 <= w < |s.workers| ==> WorkerOk(cfg, s, w))
  }

  // The parts of the invariant that look only at rows, publishes and intakes.
  ghost predicate TablesOk(cfg: Config, s: State) {
    && (forall t :: 0 <= t < |s.rows| ==> RowOk(s, t) && EventsOk(s, t))
    && (forall j :: 0 <= j < |s.intakes| ==> IntakeOk(s, j))
    && CacheOk(s)
    && KeysOk(s)
    && (forall t :: 0 <= t < |s.rows| ==> PublishesOk(s, t))
    && (forall k :: 0 <= k < |s.publishes| ==> s.publishes[k] < |s.rows|)
  }

  ghost predicate BrokerOk(cfg: Config, s: State) {
    && (forall c :: 0 <= c < |s.copies| ==> CopyOk(cfg, s, c))
    && (forall w :: 0 <= w < |s.workers| ==> WorkerOk(cfg, s, w))
    && (forall t :: 0 <= t < |s.rows| && s.rows[t].birth.Some? ==> Kept(s, t))
  }

  ghost predicate Inv(cfg: Config, s: State) {
    TablesOk(cfg, s) && BrokerOk(cfg, s)
  }

  // With a creation event present, the replay test compares destinations.
  lemma ReplayMatchesMeaning(events: seq<Event>, request: Request, toAccount: string)
    requires CreatedFirst(events, request)
    ensures ReplayMatches(events, toAccount) <==> request.TransferRequest? && request.toAccount == toAccount
  {
    if request.QrisRequest? {
      NoCreationNoMatch(events, toAccount);
    }
  }

  // Event k is the first creation event of a transfer.
  predicate FirstTransferCreated(events: seq<Event>, k: nat) {
    k < |events| && events[k].kind == TransferCreated && forall j :: 0 <= j < k ==> events[j].kind != TransferCreated
  }

  // The replay test accepts exactly if there is a creation event and the first
  // one names this destination, or names none and none is asked for.
  lemma {:induction false} ReplayMatchesExactly(events: seq<Event>, toAccount: string)
    ensures ReplayMatches(events, toAccount) <==>
            exists k: nat :: FirstTransferCreated(events, k) &&
              (events[k].metadata == TransferTo(toAccount) || (events[k].metadata == NoDestination && toAccount == ""))
  {
    if |events| > 0 && events[0].kind != TransferCreated {
      ReplayMatchesExactly(events[1..], toAccount);
      forall k: nat | k < |events| - 1 ensures FirstTransferCreated(events[1..], k) <==> FirstTransferCreated(events, k + 1) {
        FirstShifts(events, k);
      }
      if k: nat :| FirstTransferCreated(events, k) {
        assert k > 0 && FirstTransferCreated(events[1..], k - 1);
      }
    } else if |events| > 0 {
      assert FirstTransferCreated(events, 0);
    }
  }

  lemma FirstShifts(events: seq<Event>, k: nat)
    requires |events| > 0 && events[0].kind != TransferCreated
    ensures FirstTransferCreated(events[1..], k) <==> FirstTransferCreated(events, k + 1)
  {
    if FirstTransferCreated(events[1..], k) {
      forall j | 0 <= j < k + 1 ensures events[j].kind != TransferCreated {
        assert j > 0 ==> events[1..][j - 1] == events[j];
      }
    } else if FirstTransferCreated(events, k + 1) {
      forall j | 0 <= j < k ensures events[1..][j].kind != TransferCreated {
        assert events[1..][j] == events[j + 1];
      }
    }
  }

  lemma {:induction false} NoCreationNoMatch(events: seq<Event>, toAccount: string)
    requires forall k :: 0 <= k < |events| ==> events[k].kind != TransferCreated
    ensures !ReplayMatches(events, toAccount)
  {
    if |events| > 0 {
      NoCreationNoMatch(events[1..], toAccount);
    }
  }

  /******* What no step ever undoes *******/

  ghost predicate RowGrows(a: Row, b: Row) {
    && a.key == b.key && a.account == b.account && a.merchant == b.merchant && a.amount == b.amount
    && a.requestedAt == b.requestedAt && a.owner == b.owner
    && a.versions <= b.versions && a.events <= b.events
    && (a.birth.Some? ==> a.birth == b.birth)
  }

  // The monotone part of the state.
  ghost predicate Grows(s: State, s': State) {
    && s.now <= s'.now
    && (forall n <- s.accounts :: n in s'.accounts && s'.accounts[n] == s.accounts[n])
    && |s.rows| <= |s'.rows| && |s.intakes| <= |s'.intakes|
    && |s.copies| <= |s'.copies| && |s.workers| <= |s'.workers|
    && (forall t :: 0 <= t < |s.rows| ==> RowGrows(s.rows[t], s'.rows[t]))
    && (forall i :: 0 <= i < |s.intakes| ==> s'.intakes[i].request == s.intakes[i].request)
    && (forall c :: 0 <= c < |s.copies| ==> s'.copies[c].msg == s.copies[c].msg)
    && (forall w :: 0 <= w < |s.workers| ==> s'.workers[w].msg == s.workers[w].msg && s'.workers[w].copy == s.workers[w].copy)
  }

  lemma PastGrows(s: State, s': State, e: Entry)
    requires Past(s, e) && Grows(s, s')
    ensures Past(s', e)
  {
    var k :| 0 <= k < |s.rows[e.tx].versions| && e == EntryOf(e.tx, s.rows[e.tx], s.rows[e.tx].versions[k]);
    assert RowGrows(s.rows[e.tx], s'.rows[e.tx]);
    assert s'.rows[e.tx].versions[k] == s.rows[e.tx].versions[k];
  }

  lemma TerminalGrows(s: State, s': State, tx: TxId)
    requires IsTerminal(s, tx) && Grows(s, s') && RowOk(s, tx) && RowOk(s', tx)
    ensures IsTerminal(s', tx)
  {
    assert RowGrows(s.rows[tx], s'.rows[tx]);
    assert |s.rows[tx].versions| > 1;
  }

  lemma PastForRow(s: State, tx: TxId, k: nat)
    requires tx < |s.rows| && k < |s.rows[tx].versions|
    ensures Past(s, EntryOf(tx, s.rows[tx], s.rows[tx].versions[k]))
  {
  }

  lemma MessageGrows(cfg: Config, s: State, s': State, msg: Message)
    requires MessageOk(cfg, s, msg) && Grows(s, s')
    ensures MessageOk(cfg, s', msg)
    ensures msg.body.Job? ==> ReadyFrom(cfg, s', msg) == ReadyFrom(cfg, s, msg)
  {
    if msg.body.Job? {
      assert RowGrows(s.rows[msg.body.tx], s'.rows[msg.body.tx]);
    }
  }

  /******* Effects *******/

  // What a call may do to the tables without breaking the invariant.
  ghost predicate EffectOk(cfg: Config, s: State, e: Effect) {
    && EffectFits(s, e)
    && match e
       case NoEffect => true
       case InsertRow(row) =>
         && VersionsOk(row.versions) && |row.versions| == 1 && row.events == [] && row.birth.None?
         && row.owner < |s.intakes| && row.key == s.intakes[row.owner].request.key
         && row.amount == s.intakes[row.owner].request.amount
         && row.merchant.Some? == s.intakes[row.owner].request.QrisRequest?
         && IsAccount(s, s.intakes[row.owner].request.accountNumber, row.account)
         && !HasKey(s, row.key)
       case LogEvent(tx, event) =>
         s.rows[tx].owner < |s.intakes| &&
         if s.rows[tx].events == [] then event == CreatedEvent(s.intakes[s.rows[tx].owner].request)
         else event.kind != TransferCreated && event.kind != QrisCreated
       case SetStatus(tx, status) => Terminal(status)
       case SetCache(entry) => Past(s, entry)
       case PublishNew(tx, request) =>
         s.rows[tx].birth.None? && s.rows[tx].events != [] &&
         s.rows[tx].owner < |s.intakes| && request == s.intakes[s.rows[tx].owner].request
       case LogCall(call) => true
       case DropBalanceOf(account) => true
       case EnqueueRetry(copy) =>
         MessageOk(cfg, s, copy.msg) && copy.msg.body.Job? && copy.place.Retry? &&
         ReadyFrom(cfg, s, copy.msg) <= copy.place.due
       case Settle(w, place) =>
         && s.workers[w].attached && (place.Primary? || place.Dead? || place.Gone?)
         && (place.Dead? && s.workers[w].msg.body.Job? ==>
               IsTerminal(s, s.workers[w].msg.body.tx) || Retries(s.workers[w].msg) == MaxAttempts(cfg))
         && (place.Gone? ==>
               s.workers[w].msg.body.Job? && (IsTerminal(s, s.workers[w].msg.body.tx) || s.workers[w].pc.AckRetried?))
  }

  lemma EffectGrows(cfg: Config, s: State, e: Effect)
    requires EffectOk(cfg, s, e)
    ensures Grows(s, Perform(s, e))
  {
  }

  lemma EffectRow(cfg: Config, s: State, e: Effect, t: TxId)
    requires Structure(cfg, s) && EffectOk(cfg, s, e)
    requires t < |Perform(s, e).rows|
    ensures RowOk(Perform(s, e), t) && EventsOk(Perform(s, e), t)
  {
    if t < |s.rows| {
      assert RowOk(s, t) && EventsOk(s, t);
    }
  }

  lemma EffectTerminal(cfg: Config, s: State, e: Effect, t: TxId)
    requires Structure(cfg, s) && EffectOk(cfg, s, e)
    requires IsTerminal(s, t)
    ensures IsTerminal(Perform(s, e), t)
  {
    EffectGrows(cfg, s, e);
    EffectRow(cfg, s, e, t);
    TerminalGrows(s, Perform(s, e), t);
  }

  lemma EffectCopy(cfg: Config, s: State, e: Effect, c: nat)
    requires Structure(cfg, s) && EffectOk(cfg, s, e)
    requires c < |Perform(s, e).copies|
    ensures CopyOk(cfg, Perform(s, e), c)
  {
    var s' := Perform(s, e);
    EffectGrows(cfg, s, e);
    if c < |s.copies| {
      assert CopyOk(cfg, s, c);
      MessageGrows(cfg, s, s', s.copies[c].msg);
      if s.copies[c].msg.body.Job? && IsTerminal(s, s.copies[c].msg.body.tx) {
        EffectTerminal(cfg, s, e, s.copies[c].msg.body.tx);
      }
      if e.Settle? {
        assert WorkerOk(cfg, s, e.w);
      }
    } else if e.EnqueueRetry? {
      MessageGrows(cfg, s, s', e.copy.msg);
    } else {
      assert RowOk(s, e.tx);
      assert RETRY_COUNT[2] != FIRST_ENQUEUED_AT[2];
    }
  }

  lemma EffectWorker(cfg: Config, s: State, e: Effect, w: nat)
    requires Structure(cfg, s) && EffectOk(cfg, s, e)
    requires w < |s.workers|
    ensures WorkerOk(cfg, Perform(s, e), w)
  {
    var s' := Perform(s, e);
    EffectGrows(cfg, s, e);
    assert WorkerOk(cfg, s, w);
    var worker := s.workers[w];
    if worker.pc.CacheResult? {
      PastGrows(s, s', worker.pc.entry);
    }
    if AfterUpdate(worker.pc) {
      EffectTerminal(cfg, s, e, worker.msg.body.tx);
    }
    if e.Settle? {
      assert WorkerOk(cfg, s, e.w);
    }
  }

  // The row whose phase an effect may change.
  predicate Touches(e: Effect, tx: int) {
    (e.LogEvent? && e.tx == tx) || (e.SetStatus? && e.tx == tx) || (e.PublishNew? && e.tx == tx)
  }

  lemma EffectIntake(cfg: Config, s: State, e: Effect, i: nat)
    requires Structure(cfg, s) && EffectOk(cfg, s, e)
    requires i < |s.intakes|
    requires Owning(s.intakes[i].pc) ==> !Touches(e, s.intakes[i].pc.tx) || s.intakes[i].pc.WriteEnqueued?
    ensures IntakeOk(Perform(s, e), i)
  {
    var s' := Perform(s, e);
    EffectGrows(cfg, s, e);
    assert IntakeOk(s, i);
    var pc := s.intakes[i].pc;
    if RefersToRow(pc) {
      assert RowGrows(s.rows[pc.tx], s'.rows[pc.tx]);
    }
    if pc.CompensateCache? {
      PastGrows(s, s', pc.entry);
    }
    if pc.Done? && pc.outcome.Created? {
      assert RowGrows(s.rows[pc.outcome.tx], s'.rows[pc.outcome.tx]);
    }
  }

  lemma EffectCache(cfg: Config, s: State, e: Effect)
    requires EffectOk(cfg, s, e) && CacheOk(s)
    ensures CacheOk(Perform(s, e))
  {
    var s' := Perform(s, e);
    EffectGrows(cfg, s, e);
    forall tx <- s'.cache
      ensures s'.cache[tx].tx == tx && Past(s', s'.cache[tx])
    {
      PastGrows(s, s', s'.cache[tx]);
    }
    forall entry <- s'.fills
      ensures Past(s', entry)
    {
      PastGrows(s, s', entry);
    }
  }

  lemma EffectKeys(cfg: Config, s: State, e: Effect)
    requires EffectOk(cfg, s, e) && KeysOk(s)
    ensures KeysOk(Perform(s, e))
  {
  }

  lemma EffectPublishes(cfg: Config, s: State, e: Effect, t: TxId)
    requires Inv(cfg, s) && EffectOk(cfg, s, e)
    requires t < |Perform(s, e).rows|
    ensures PublishesOk(Perform(s, e), t)
  {
    if t < |s.rows| {
      assert PublishesOk(s, t);
      if e.PublishNew? {
        CountAppend(s.publishes, t, e.tx);
      }
    } else {
      CountZero(s.publishes, t);
    }
  }

  lemma EffectKept(cfg: Config, s: State, e: Effect, t: TxId)
    requires Inv(cfg, s) && EffectOk(cfg, s, e)
    requires t < |Perform(s, e).rows| && Perform(s, e).rows[t].birth.Some?
    ensures Kept(Perform(s, e), t)
  {
    var s' := Perform(s, e);
    if e.PublishNew? && e.tx == t {
      assert Holds(s', |s.copies|, t);
    } else {
      assert Kept(s, t);
      if IsTerminal(s, t) {
        EffectTerminal(cfg, s, e, t);
      } else {
        var c :| Holds(s, c, t);
        if e.Settle? {
          assert WorkerOk(cfg, s, e.w);
        }
        assert CopyOk(cfg, s, c);
        assert Holds(s', c, t);
      }
    }
  }

  // An effect keeps everything except the standing of the call that made it.
  ghost predicate InvExcept(cfg: Config, s: State, i: int) {
    && (forall t :: 0 <= t < |s.rows| ==> RowOk(s, t) && EventsOk(s, t))
    && (forall j :: 0 <= j < |s.intakes| && j != i ==> IntakeOk(s, j))
    && (forall c :: 0 <= c < |s.copies| ==> CopyOk(cfg, s, c))
    && (forall w :: 0 <= w < |s.workers| ==> WorkerOk(cfg, s, w))
    && CacheOk(s)
    && KeysOk(s)
    && (forall t :: 0 <= t < |s.rows| && s.rows[t].birth.Some? ==> Kept(s, t))
    && (forall t :: 0 <= t < |s.rows| ==> PublishesOk(s, t))
    && (forall k :: 0 <= k < |s.publishes| ==> s.publishes[k] < |s.rows|)
  }

  lemma EffectKeepsInv(cfg: Config, s: State, e: Effect, i: int)
    requires Inv(cfg, s) && EffectOk(cfg, s, e)
    requires forall j :: 0 <= j < |s.intakes| && j != i && Owning(s.intakes[j].pc) ==>
               !Touches(e, s.intakes[j].pc.tx) || s.intakes[j].pc.WriteEnqueued?
    ensures InvExcept(cfg, Perform(s, e), i)
  {
    var s' := Perform(s, e);
    forall t | 0 <= t < |s'.rows| ensures RowOk(s', t) && EventsOk(s', t) && PublishesOk(s', t) {
      EffectRow(cfg, s, e, t);
      EffectPublishes(cfg, s, e, t);
    }
    forall j | 0 <= j < |s'.intakes| && j != i ensures IntakeOk(s', j) { EffectIntake(cfg, s, e, j); }
    forall c | 0 <= c < |s'.copies| ensures CopyOk(cfg, s', c) { EffectCopy(cfg, s, e, c); }
    forall w | 0 <= w < |s'.workers| ensures WorkerOk(cfg, s', w) { EffectWorker(cfg, s, e, w); }
    forall t | 0 <= t < |s'.rows| && s'.rows[t].birth.Some? ensures Kept(s', t) { EffectKept(cfg, s, e, t); }
    EffectCache(cfg, s, e);
    EffectKeys(cfg, s, e);
  }

  lemma PastSame(s: State, s': State, e: Entry)
    requires s'.rows == s.rows
    ensures Past(s', e) <==> Past(s, e)
  {
  }

  lemma SameCache(s: State, s': State)
    requires CacheOk(s) && s'.rows == s.rows
    requires forall tx <- s'.cache :: s'.cache[tx].tx == tx && (s'.cache[tx] in s.fills || (tx in s.cache && s'.cache[tx] == s.cache[tx]))
    requires s'.fills <= s.fills
    ensures CacheOk(s')
  {
    forall tx <- s'.cache ensures Past(s', s'.cache[tx]) {
      PastSame(s, s', s'.cache[tx]);
    }
    forall e <- s'.fills ensures Past(s', e) {
      assert e in s.fills;
      PastSame(s, s', e);
    }
  }

  // Rows, publishes and intakes stay; calls may arrive.
  lemma SameTables(cfg: Config, s: State, s': State)
    requires TablesOk(cfg, s)
    requires s'.rows == s.rows && s'.publishes == s.publishes && s.now <= s'.now
    requires forall n <- s.accounts :: n in s'.accounts && s'.accounts[n] == s.accounts[n]
    requires s.intakes <= s'.intakes
    requires forall j :: |s.intakes| <= j < |s'.intakes| ==> s'.intakes[j].pc.LookupKey?
    requires CacheOk(s')
    ensures TablesOk(cfg, s')
  {
    forall t | 0 <= t < |s'.rows| ensures RowOk(s', t) && EventsOk(s', t) && PublishesOk(s', t) {
      assert RowOk(s, t) && EventsOk(s, t) && PublishesOk(s, t);
    }
    forall j | 0 <= j < |s'.intakes| ensures IntakeOk(s', j) {
      if j < |s.intakes| {
        assert IntakeOk(s, j);
        if s.intakes[j].pc.CompensateCache? {
          PastSame(s, s', s.intakes[j].pc.entry);
        }
      }
    }
  }

  // Copies and workers stay.
  lemma SameBroker(cfg: Config, s: State, s': State)
    requires BrokerOk(cfg, s)
    requires s'.rows == s.rows && s.now <= s'.now && s'.copies == s.copies && s'.workers == s.workers
    requires |s.intakes| <= |s'.intakes|
    requires forall j :: 0 <= j < |s.intakes| ==> s'.intakes[j].request == s.intakes[j].request
    ensures BrokerOk(cfg, s')
  {
    forall c | 0 <= c < |s'.copies| ensures CopyOk(cfg, s', c) {
      assert CopyOk(cfg, s, c);
    }
    forall w | 0 <= w < |s'.workers| ensures WorkerOk(cfg, s', w) {
      assert WorkerOk(cfg, s, w);
      if s.workers[w].pc.CacheResult? {
        PastSame(s, s', s.workers[w].pc.entry);
      }
    }
    forall t | 0 <= t < |s'.rows| && s'.rows[t].birth.Some? ensures Kept(s', t) {
      assert Kept(s, t);
      if !IsTerminal(s, t) {
        var c :| Holds(s, c, t);
        assert Holds(s', c, t);
      }
    }
  }

  /******* Intake steps *******/

  lemma IntakeEffectOk(cfg: Config, s: State, i: nat, reply: Reply)
    requires Inv(cfg, s) && IntakeEnabled(s, i, reply)
    ensures EffectOk(cfg, s, IntakeEffect(s, i, reply))
    ensures forall t :: Touches(IntakeEffect(s, i, reply), t) ==> Owning(s.intakes[i].pc) && s.intakes[i].pc.tx == t
  {
    assert IntakeOk(s, i);
    var pc := s.intakes[i].pc;
    if Owning(pc) {
      assert RowOk(s, pc.tx) && EventsOk(s, pc.tx);
      if pc.CacheNew? {
        PastForRow(s, pc.tx, 0);
      }
    }
  }

  lemma OwnerStands(cfg: Config, s: State, i: nat, reply: Reply)
    requires IntakeEnabled(s, i, reply) && Owning(s.intakes[i].pc)
    requires IntakeOk(s, i) && RowOk(s, s.intakes[i].pc.tx) && EventsOk(s, s.intakes[i].pc.tx)
    ensures IntakeStands(Perform(s, IntakeEffect(s, i, reply)), i, s.intakes[i].request, IntakeGoto(s, i, reply))
  {
    var pc := s.intakes[i].pc;
    if pc.CompensateRow? && reply != Broken {
      PastForRow(Perform(s, IntakeEffect(s, i, reply)), pc.tx, |s.rows[pc.tx].versions|);
    }
  }

  lemma SeekerStands(cfg: Config, s: State, i: nat, reply: Reply)
    requires Structure(cfg, s) && IntakeEnabled(s, i, reply) && !Owning(s.intakes[i].pc)
    ensures IntakeStands(Perform(s, IntakeEffect(s, i, reply)), i, s.intakes[i].request, IntakeGoto(s, i, reply))
  {
    assert IntakeOk(s, i);
    var pc := s.intakes[i].pc;
    if RefersToRow(pc) {
      assert RowOk(s, pc.tx) && EventsOk(s, pc.tx);
    }
    if pc.ListEvents? {
      if s.rows[pc.tx].events != [] {
        ReplayMatchesMeaning(s.rows[pc.tx].events, s.intakes[s.rows[pc.tx].owner].request, s.intakes[i].request.toAccount);
      }
    }
  }

  lemma IntakeControl(cfg: Config, s: State, i: nat, pc: IntakePc)
    requires InvExcept(cfg, s, i) && i < |s.intakes|
    requires IntakeStands(s, i, s.intakes[i].request, pc)
    ensures Inv(cfg, AtIntake(s, i, pc))
  {
    var s' := AtIntake(s, i, pc);
    forall t | 0 <= t < |s'.rows| ensures RowOk(s', t) && EventsOk(s', t) && PublishesOk(s', t) {
      assert RowOk(s, t) && EventsOk(s, t) && PublishesOk(s, t);
    }
    forall j | 0 <= j < |s'.intakes| ensures IntakeOk(s', j) {
      if j != i {
        assert IntakeOk(s, j);
      }
      if s'.intakes[j].pc.CompensateCache? {
        PastSame(s, s', s'.intakes[j].pc.entry);
      }
    }
    SameCache(s, s');
    SameBroker(cfg, s, s');
  }

  lemma IntakeStepKeepsInv(cfg: Config, s: State, i: nat, reply: Reply)
    requires Inv(cfg, s) && IntakeEnabled(s, i, reply)
    ensures Inv(cfg, IntakeNext(s, i, reply))
  {
    var e := IntakeEffect(s, i, reply);
    IntakeEffectOk(cfg, s, i, reply);
    forall j | 0 <= j < |s.intakes| && j != i && Owning(s.intakes[j].pc)
      ensures !Touches(e, s.intakes[j].pc.tx)
    {
      assert IntakeOk(s, j) && IntakeOk(s, i);
    }
    EffectKeepsInv(cfg, s, e, i);
    assert IntakeOk(s, i);
    if Owning(s.intakes[i].pc) {
      assert RowOk(s, s.intakes[i].pc.tx) && EventsOk(s, s.intakes[i].pc.tx);
      OwnerStands(cfg, s, i, reply);
    } else {
      SeekerStands(cfg, s, i, reply);
    }
    IntakeControl(cfg, Perform(s, e), i, IntakeGoto(s, i, reply));
  }

  /******* Worker steps *******/

  // A retry carries the same body and first-enqueued time, one more retry,
  // and is not due before the delays of all its retries have passed.
  lemma RetryCopyOk(cfg: Config, s: State, msg: Message)
    requires ValidConfig(cfg)
    requires MessageOk(cfg, s, msg) && msg.body.Job? && Retries(msg) < MaxAttempts(cfg)
    requires ReadyFrom(cfg, s, msg) <= s.now
    ensures EffectOk(cfg, s, EnqueueRetry(RetryCopy(cfg, s, msg)))
    ensures Retries(RetryCopy(cfg, s, msg).msg) == Retries(msg) + 1
  {
    RetryHeadersMeaning(msg.headers, s.now);
  }

  lemma WorkerEffectOk(cfg: Config, s: State, w: nat, ok: bool)
    requires ValidConfig(cfg) && Inv(cfg, s) && WorkerEnabled(s, w, ok)
    ensures EffectOk(cfg, s, WorkerEffect(cfg, s, w, ok))
    ensures forall t :: Touches(WorkerEffect(cfg, s, w, ok), t) ==> 0 <= t < |s.rows| && s.rows[t].birth.Some?
  {
    assert WorkerOk(cfg, s, w);
    assert CopyOk(cfg, s, s.workers[w].copy);
    if Handling(s.workers[w].pc) {
      assert RowOk(s, s.workers[w].msg.body.tx) && EventsOk(s, s.workers[w].msg.body.tx);
      HandlingOk(cfg, s, w, ok);
    } else {
      SettlingOk(cfg, s, w, ok);
    }
  }

  lemma HandlingOk(cfg: Config, s: State, w: nat, ok: bool)
    requires WorkerEnabled(s, w, ok) && WorkerOk(cfg, s, w) && MessageOk(cfg, s, s.workers[w].msg) && Handling(s.workers[w].pc)
    requires EventsOk(s, s.workers[w].msg.body.tx)
    ensures EffectOk(cfg, s, WorkerEffect(cfg, s, w, ok))
    ensures forall t :: Touches(WorkerEffect(cfg, s, w, ok), t) ==> 0 <= t < |s.rows| && s.rows[t].birth.Some?
  {
  }

  lemma SettlingOk(cfg: Config, s: State, w: nat, ok: bool)
    requires ValidConfig(cfg) && WorkerEnabled(s, w, ok) && WorkerOk(cfg, s, w) && CopyOk(cfg, s, s.workers[w].copy)
    requires !Handling(s.workers[w].pc)
    ensures EffectOk(cfg, s, WorkerEffect(cfg, s, w, ok))
    ensures forall t :: !Touches(WorkerEffect(cfg, s, w, ok), t)
  {
    if s.workers[w].pc.PublishRetry? && ok {
      RetryCopyOk(cfg, s, s.workers[w].msg);
    }
  }

  lemma WorkerStandsNext(cfg: Config, s: State, w: nat, ok: bool)
    requires WorkerEnabled(s, w, ok) && WorkerOk(cfg, s, w) && MessageOk(cfg, s, s.workers[w].msg)
    requires EffectOk(cfg, s, WorkerEffect(cfg, s, w, ok))
    requires AfterUpdate(s.workers[w].pc) ==> IsTerminal(Perform(s, WorkerEffect(cfg, s, w, ok)), s.workers[w].msg.body.tx)
    ensures WorkerStands(cfg, Perform(s, WorkerEffect(cfg, s, w, ok)), s.workers[w].msg, WorkerGoto(cfg, s, w, ok))
  {
    var worker := s.workers[w];
    if worker.pc.UpdateRow? && ok {
      PastForRow(Perform(s, WorkerEffect(cfg, s, w, ok)), worker.msg.body.tx, |s.rows[worker.msg.body.tx].versions|);
    }
  }

  lemma WorkerStandsAfter(cfg: Config, s: State, w: nat, ok: bool)
    requires ValidConfig(cfg) && Inv(cfg, s) && WorkerEnabled(s, w, ok)
    ensures EffectOk(cfg, s, WorkerEffect(cfg, s, w, ok))
    ensures WorkerStands(cfg, Perform(s, WorkerEffect(cfg, s, w, ok)), s.workers[w].msg, WorkerGoto(cfg, s, w, ok))
  {
    WorkerEffectOk(cfg, s, w, ok);
    assert WorkerOk(cfg, s, w);
    assert CopyOk(cfg, s, s.workers[w].copy);
    if AfterUpdate(s.workers[w].pc) {
      EffectTerminal(cfg, s, WorkerEffect(cfg, s, w, ok), s.workers[w].msg.body.tx);
    }
    WorkerStandsNext(cfg, s, w, ok);
  }

  lemma WorkerControl(cfg: Config, s: State, w: nat, pc: WorkerPc)
    requires InvExcept(cfg, s, -1) && w < |s.workers|
    requires WorkerStands(cfg, s, s.workers[w].msg, pc)
    requires pc.AckRetried? && s.workers[w].msg.body.Job? ==>
               exists c :: c != s.workers[w].copy && Holds(s, c, s.workers[w].msg.body.tx)
    ensures Inv(cfg, AtWorker(s, w, pc))
  {
    var s' := AtWorker(s, w, pc);
    SameCache(s, s');
    SameTables(cfg, s, s');
    forall c | 0 <= c < |s'.copies| ensures CopyOk(cfg, s', c) {
      assert CopyOk(cfg, s, c);
    }
    forall v | 0 <= v < |s'.workers| ensures WorkerOk(cfg, s', v) {
      assert WorkerOk(cfg, s, v);
      if s'.workers[v].pc.CacheResult? {
        PastSame(s, s', s'.workers[v].pc.entry);
      }
    }
    forall t | 0 <= t < |s'.rows| && s'.rows[t].birth.Some? ensures Kept(s', t) {
      WorkerControlKept(cfg, s, w, pc, t);
    }
  }

  lemma WorkerControlKept(cfg: Config, s: State, w: nat, pc: WorkerPc, t: TxId)
    requires InvExcept(cfg, s, -1) && w < |s.workers|
    requires pc.AckRetried? && s.workers[w].msg.body.Job? ==>
               exists c :: c != s.workers[w].copy && Holds(s, c, s.workers[w].msg.body.tx)
    requires t < |s.rows| && s.rows[t].birth.Some?
    ensures Kept(AtWorker(s, w, pc), t)
  {
    var s' := AtWorker(s, w, pc);
    assert Kept(s, t);
    if !IsTerminal(s, t) {
      var c :| Holds(s, c, t);
      assert CopyOk(cfg, s, c) && WorkerOk(cfg, s, w);
      if c == s.workers[w].copy && pc.AckRetried? {
        var d :| d != c && Holds(s, d, t);
        assert CopyOk(cfg, s, d);
        assert Holds(s', d, t);
      } else {
        assert Holds(s', c, t);
      }
    }
  }

  // A worker touches only rows that no intake is still working on.
  lemma WorkerSparesIntakes(cfg: Config, s: State, w: nat, ok: bool)
    requires ValidConfig(cfg) && Inv(cfg, s) && WorkerEnabled(s, w, ok)
    ensures EffectOk(cfg, s, WorkerEffect(cfg, s, w, ok))
    ensures forall j :: 0 <= j < |s.intakes| && Owning(s.intakes[j].pc) ==>
              !Touches(WorkerEffect(cfg, s, w, ok), s.intakes[j].pc.tx) || s.intakes[j].pc.WriteEnqueued?
  {
    WorkerEffectOk(cfg, s, w, ok);
    forall j | 0 <= j < |s.intakes| && Owning(s.intakes[j].pc)
      ensures !Touches(WorkerEffect(cfg, s, w, ok), s.intakes[j].pc.tx) || s.intakes[j].pc.WriteEnqueued?
    {
      assert IntakeOk(s, j);
    }
  }

  // A worker about to acknowledge a retried message has published its copy.
  lemma RetryHolds(cfg: Config, s: State, w: nat, ok: bool)
    requires ValidConfig(cfg) && Inv(cfg, s) && WorkerEnabled(s, w, ok)
    requires WorkerGoto(cfg, s, w, ok).AckRetried? && s.workers[w].msg.body.Job?
    ensures exists c :: c != s.workers[w].copy && Holds(Perform(s, WorkerEffect(cfg, s, w, ok)), c, s.workers[w].msg.body.tx)
  {
    assert WorkerOk(cfg, s, w);
    assert Holds(Perform(s, WorkerEffect(cfg, s, w, ok)), |s.copies|, s.workers[w].msg.body.tx);
  }

  lemma WorkerStepKeepsInv(cfg: Config, s: State, w: nat, ok: bool)
    requires ValidConfig(cfg) && Inv(cfg, s) && WorkerEnabled(s, w, ok)
    ensures Inv(cfg, WorkerNext(cfg, s, w, ok))
  {
    var e, pc := WorkerEffect(cfg, s, w, ok), WorkerGoto(cfg, s, w, ok);
    WorkerSparesIntakes(cfg, s, w, ok);
    EffectKeepsInv(cfg, s, e, -1);
    WorkerStandsAfter(cfg, s, w, ok);
    if pc.AckRetried? && s.workers[w].msg.body.Job? {
      RetryHolds(cfg, s, w, ok);
    }
    MessagesStay(s, e, w);
    WorkerControl(cfg, Perform(s, e), w, pc);
  }

  lemma MessagesStay(s: State, e: Effect, w: nat)
    requires EffectFits(s, e) && w < |s.workers|
    ensures w < |Perform(s, e).workers|
    ensures Perform(s, e).workers[w].msg == s.workers[w].msg && Perform(s, e).workers[w].copy == s.workers[w].copy
  {
  }

  /******* The remaining steps *******/

  // Steps that move message copies without a handler: delivery, loss of the
  // connection, expiry in the retry queue, and foreign messages.
  lemma BrokerStepKeepsInv(cfg: Config, s: State, step: Step)
    requires Inv(cfg, s) && Enabled(cfg, s, step)
    requires step.Deliver? || step.DropConnection? || step.Expire? || step.Foreign?
    ensures Inv(cfg, Apply(cfg, s, step))
  {
    var s' := Apply(cfg, s, step);
    SameCache(s, s');
    SameTables(cfg, s, s');
    forall c | 0 <= c < |s'.copies| ensures CopyOk(cfg, s', c) {
      BrokerCopy(cfg, s, step, c);
    }
    forall w | 0 <= w < |s'.workers| ensures WorkerOk(cfg, s', w) {
      BrokerWorker(cfg, s, step, w);
    }
    forall t | 0 <= t < |s'.rows| && s'.rows[t].birth.Some? ensures Kept(s', t) {
      BrokerKept(cfg, s, step, t);
    }
  }

  lemma BrokerCopy(cfg: Config, s: State, step: Step, c: nat)
    requires Structure(cfg, s) && Enabled(cfg, s, step)
    requires step.Deliver? || step.DropConnection? || step.Expire? || step.Foreign?
    requires c < |Apply(cfg, s, step).copies|
    ensures CopyOk(cfg, Apply(cfg, s, step), c)
  {
    if c < |s.copies| {
      assert CopyOk(cfg, s, c);
    }
    if step.DropConnection? {
      assert WorkerOk(cfg, s, step.w);
    }
  }

  lemma BrokerWorker(cfg: Config, s: State, step: Step, w: nat)
    requires Structure(cfg, s) && Enabled(cfg, s, step)
    requires step.Deliver? || step.DropConnection? || step.Expire? || step.Foreign?
    requires w < |Apply(cfg, s, step).workers|
    ensures WorkerOk(cfg, Apply(cfg, s, step), w)
  {
    if w < |s.workers| {
      assert WorkerOk(cfg, s, w);
    }
    if step.DropConnection? {
      assert WorkerOk(cfg, s, step.w);
    }
  }

  lemma BrokerKept(cfg: Config, s: State, step: Step, t: TxId)
    requires Inv(cfg, s) && Enabled(cfg, s, step)
    requires step.Deliver? || step.DropConnection? || step.Expire? || step.Foreign?
    requires t < |s.rows| && s.rows[t].birth.Some?
    ensures Kept(Apply(cfg, s, step), t)
  {
    assert Kept(s, t);
    if !IsTerminal(s, t) {
      var c :| Holds(s, c, t);
      assert CopyOk(cfg, s, c);
      if step.DropConnection? {
        assert WorkerOk(cfg, s, step.w);
      }
      BrokerHolds(cfg, s, step, c, t);
    }
  }

  lemma BrokerHolds(cfg: Config, s: State, step: Step, c: nat, t: TxId)
    requires Enabled(cfg, s, step) && Holds(s, c, t) && CopyOk(cfg, s, c)
    requires step.Deliver? || step.DropConnection? || step.Expire? || step.Foreign?
    requires step.DropConnection? ==> WorkerOk(cfg, s, step.w)
    ensures Holds(Apply(cfg, s, step), c, t)
  {
  }

  // Steps that only touch the clock, the accounts, the cache or the list of
  // calls in progress.
  lemma QuietStepKeepsInv(cfg: Config, s: State, step: Step)
    requires Inv(cfg, s) && Enabled(cfg, s, step)
    requires step.Tick? || step.AddAccount? || step.Arrive? || step.ReadRow? || step.FillCache? || step.Evict?
    ensures Inv(cfg, Apply(cfg, s, step))
  {
    QuietCache(cfg, s, step);
    SameTables(cfg, s, Apply(cfg, s, step));
    SameBroker(cfg, s, Apply(cfg, s, step));
  }

  lemma QuietCache(cfg: Config, s: State, step: Step)
    requires CacheOk(s) && Enabled(cfg, s, step)
    requires step.Tick? || step.AddAccount? || step.Arrive? || step.ReadRow? || step.FillCache? || step.Evict?
    ensures CacheOk(Apply(cfg, s, step))
  {
    if step.ReadRow? {
      ReadCache(s, step.tx);
    } else {
      SameCache(s, Apply(cfg, s, step));
    }
  }

  lemma ReadCache(s: State, tx: TxId)
    requires CacheOk(s) && tx < |s.rows| && |s.rows[tx].versions| > 0
    ensures CacheOk(s.(fills := s.fills + multiset{CurrentEntry(s, tx)}))
  {
    var s' := s.(fills := s.fills + multiset{CurrentEntry(s, tx)});
    PastForRow(s, tx, |s.rows[tx].versions| - 1);
    forall e <- s'.fills ensures Past(s', e) {
      assert e in s.fills || e == CurrentEntry(s, tx);
      PastSame(s, s', e);
    }
    forall t <- s'.cache ensures Past(s', s'.cache[t]) {
      PastSame(s, s', s.cache[t]);
    }
  }

  /******* Every run *******/

  lemma StepKeepsInv(cfg: Config, s: State, step: Step)
    requires ValidConfig(cfg) && Inv(cfg, s) && Enabled(cfg, s, step)
    ensures Inv(cfg, Apply(cfg, s, step))
  {
    match step {
      case IntakeStep(i, reply) => IntakeStepKeepsInv(cfg, s, i, reply);
      case WorkerStep(w, ok) => WorkerStepKeepsInv(cfg, s, w, ok);
      case Deliver(_) => BrokerStepKeepsInv(cfg, s, step);
      case DropConnection(_) => BrokerStepKeepsInv(cfg, s, step);
      case Expire(_) => BrokerStepKeepsInv(cfg, s, step);
      case Foreign(_) => BrokerStepKeepsInv(cfg, s, step);
      case _ => QuietStepKeepsInv(cfg, s, step);
    }
  }

  // The invariant holds in every reachable state.
  lemma ReachableInv(cfg: Config, s: State)
    requires ValidConfig(cfg) && Reachable(cfg, s)
    ensures Inv(cfg, s)
  {
    ReachableExactly(cfg, s);
    var kept := (x: State) => Inv(cfg, x);
    forall x, step | kept(x) && Enabled(cfg, x, step) ensures kept(Apply(cfg, x, step)) {
      StepKeepsInv(cfg, x, step);
    }
    assert StepClosed(cfg, kept);
    assert kept(Initial());
  }

  lemma RunKeepsInv(cfg: Config, r: Run, n: nat)
    requires ValidConfig(cfg) && ValidRun(cfg, r) && n < |r.states|
    ensures Inv(cfg, r.states[n])
  {
    RunLeads(cfg, r, 0, n);
    ReachableExactly(cfg, r.states[n]);
    ReachableInv(cfg, r.states[n]);
  }
}
