// The turns of an accepted payment and of a delivery, one by one, each with
// everything it wrote: the calls happen in this order and write this much.
module PipelineTrails {
  import opened Common
  import opened Backoff
  import opened Headers
  import opened Pipeline
  import opened PipelineRuns
  import opened PipelineSafety
  import opened PipelineTheorems
  import opened PipelineTurns
  import opened PipelineOutcomes

  /******* What one turn writes *******/

  // The state without the calls in progress.
  function Tables(s: State): State { s.(intakes := [], workers := []) }

  predicate WritesNothing(s: State, s': State) { Tables(s') == Tables(s) }

  predicate InsertsRow(s: State, s': State, i: nat, request: Request, account: nat, merchant: Option<nat>) {
    Tables(s') == Tables(s).(rows := s.rows +
      [Row(request.key, account, merchant, request.amount, s.now, [Version(Processing, None, s.now)], [], i, None)])
  }

  predicate LogsEvent(s: State, s': State, tx: TxId, event: Event) {
    && tx < |s.rows|
    && Tables(s') == Tables(s).(rows := s.rows[tx := s.rows[tx].(events := s.rows[tx].events + [event])])
  }

  // An intake's turn j logs the event, or fails and writes nothing.
  predicate TriesToLog(r: Run, j: nat, tx: TxId, event: Event)
    requires j + 1 < |r.states| && j < |r.steps| && r.steps[j].IntakeStep?
  {
    if r.steps[j].reply == Broken then WritesNothing(r.states[j], r.states[j + 1])
    else LogsEvent(r.states[j], r.states[j + 1], tx, event)
  }

  predicate TriesToCache(r: Run, j: nat, entry: Entry)
    requires j + 1 < |r.states| && j < |r.steps| && r.steps[j].IntakeStep?
  {
    if r.steps[j].reply == Broken then WritesNothing(r.states[j], r.states[j + 1])
    else Caches(r.states[j], r.states[j + 1], entry)
  }

  // The row gets a status, processed and updated now.
  predicate WritesStatus(s: State, s': State, tx: TxId, status: Status) {
    && tx < |s.rows|
    && Tables(s') == Tables(s).(rows := s.rows[tx := s.rows[tx].(versions :=
         s.rows[tx].versions + [Version(status, Some(s.now), s.now)])])
  }

  predicate Caches(s: State, s': State, entry: Entry) { Tables(s') == Tables(s).(cache := s.cache[entry.tx := entry]) }

  // A fresh job in the primary queue; the row remembers it.
  predicate PublishesJob(s: State, s': State, tx: TxId, account: nat, merchant: Option<nat>, request: Request) {
    && tx < |s.rows|
    && Tables(s') == Tables(s).(
         copies := s.copies + [Copy(
           Message(Job(tx, account, merchant, request), map["x-retry-count" := Int32(0), "x-first-enqueued-at" := Stamp(s.now)]),
           Primary)],
         rows := s.rows[tx := s.rows[tx].(birth := Some(Birth(s.now, |s.copies|)))],
         publishes := s.publishes + [tx])
  }

  predicate CallsLegacy(s: State, s': State, tx: TxId, ok: bool, request: Request) {
    Tables(s') == Tables(s).(calls := s.calls + [Call(tx, ok, request)])
  }

  predicate DropsBalance(s: State, s': State, account: nat) {
    Tables(s') == Tables(s).(invalidations := s.invalidations + [account])
  }

  // The delivered copy moves; putting a job back is counted.
  predicate Settles(s: State, s': State, w: nat, place: Place) {
    && w < |s.workers| && s.workers[w].copy < |s.copies|
    && var c, body := s.workers[w].copy, s.workers[w].msg.body;
    && Tables(s') == Tables(s).(
         copies := s.copies[c := s.copies[c].(place := place)],
         requeues := if place == Primary && body.Job? then s.requeues + [body.tx] else s.requeues)
  }

  /******* Intake, one turn back *******/

  lemma IntoLoadAccount(s: State, i: nat, reply: Reply)
    requires IntakeEnabled(s, i, reply) && IntakeGoto(s, i, reply).LoadAccount?
    ensures s.intakes[i].pc == LookupKey && reply == Okay && Free(s, s.intakes[i].request.key)
    ensures WritesNothing(s, IntakeNext(s, i, reply))
  {
    FreeIsNoKey(s, s.intakes[i].request.key);
  }

  lemma IntoResolve(s: State, i: nat, reply: Reply)
    requires IntakeEnabled(s, i, reply) && IntakeGoto(s, i, reply).ResolveMerchant?
    ensures s.intakes[i].pc == LoadAccount && reply == Okay && s.intakes[i].request.QrisRequest?
    ensures IsAccount(s, s.intakes[i].request.accountNumber, IntakeGoto(s, i, reply).account)
    ensures WritesNothing(s, IntakeNext(s, i, reply))
  {
  }

  lemma IntoInsert(s: State, i: nat, reply: Reply)
    requires IntakeEnabled(s, i, reply) && IntakeGoto(s, i, reply).Insert?
    ensures
      var pc := IntakeGoto(s, i, reply);
      if s.intakes[i].pc.LoadAccount? then
        reply == Okay && s.intakes[i].request.TransferRequest? && pc.merchant == None &&
        IsAccount(s, s.intakes[i].request.accountNumber, pc.account)
      else s.intakes[i].pc == ResolveMerchant(pc.account) && reply.FoundMerchant? && pc.merchant == Some(reply.id)
    ensures WritesNothing(s, IntakeNext(s, i, reply))
  {
  }

  lemma IntoWriteCreated(s: State, i: nat, reply: Reply)
    requires IntakeEnabled(s, i, reply) && IntakeGoto(s, i, reply).WriteCreated?
    ensures s.intakes[i].pc.Insert? && reply == Okay && IntakeGoto(s, i, reply).tx == |s.rows|
    ensures Free(s, s.intakes[i].request.key) && s.intakes[i].request.amount > 0
    ensures InsertsRow(s, IntakeNext(s, i, reply), i, s.intakes[i].request, s.intakes[i].pc.account, s.intakes[i].pc.merchant)
  {
    FreeIsNoKey(s, s.intakes[i].request.key);
  }

  // What the log says of a row's creation.
  function CreationEvent(request: Request): Event {
    if request.QrisRequest? then Event(QrisCreated, NoDestination)
    else Event(TransferCreated, TransferTo(request.toAccount))
  }

  lemma IntoCacheNew(s: State, i: nat, reply: Reply)
    requires IntakeEnabled(s, i, reply) && IntakeGoto(s, i, reply).CacheNew?
    ensures s.intakes[i].pc == WriteCreated(IntakeGoto(s, i, reply).tx) && reply == Okay
    ensures LogsEvent(s, IntakeNext(s, i, reply), s.intakes[i].pc.tx, CreationEvent(s.intakes[i].request))
  {
  }

  lemma IntoPublish(s: State, i: nat, reply: Reply)
    requires IntakeEnabled(s, i, reply) && IntakeGoto(s, i, reply).Publish?
    ensures s.intakes[i].pc == CacheNew(IntakeGoto(s, i, reply).tx) && reply == Okay
    ensures
      var tx := s.intakes[i].pc.tx;
      var first := s.rows[tx].versions[0];
      Caches(s, IntakeNext(s, i, reply), Entry(tx, first.status, s.rows[tx].requestedAt, first.processedAt, first.updatedAt))
  {
  }

  lemma IntoWriteEnqueued(s: State, i: nat, reply: Reply)
    requires IntakeEnabled(s, i, reply) && IntakeGoto(s, i, reply).WriteEnqueued?
    ensures s.intakes[i].pc == Publish(IntakeGoto(s, i, reply).tx) && reply == Okay
    ensures
      var tx := s.intakes[i].pc.tx;
      PublishesJob(s, IntakeNext(s, i, reply), tx, s.rows[tx].account, s.rows[tx].merchant, s.intakes[i].request)
  {
  }

  lemma IntoCreated(s: State, i: nat, reply: Reply, tx: TxId)
    requires IntakeEnabled(s, i, reply) && IntakeGoto(s, i, reply) == Done(Created(tx))
    ensures s.intakes[i].pc == WriteEnqueued(tx)
    ensures if reply == Broken then WritesNothing(s, IntakeNext(s, i, reply))
            else LogsEvent(s, IntakeNext(s, i, reply), tx, Event(Enqueued, NoDestination))
  {
  }

  /******* The whole intake *******/

  // The turns of an accepted call: first the lookups of its key, of its account
  // and for QRIS of its merchant, then the writes.
  datatype Lookups = Lookups(key: nat, account: nat, merchant: Option<nat>)

  datatype Writes = Writes(insert: nat, created: nat, cached: nat, published: nat, enqueued: nat)

  // Up to the insert: the key was free, the account was loaded and the merchant
  // found, and nothing was written.
  ghost predicate Sought(r: Run, n: nat, i: nat, request: Request, account: nat, merchant: Option<nat>, t: Lookups) {
    && t.key < t.account < n && TurnOf(r, t.key, i) && TurnOf(r, t.account, i)
    && Rests(r, 0, t.key, i) && Rests(r, t.key + 1, t.account, i)
    && Free(r.states[t.key], request.key) && WritesNothing(r.states[t.key], r.states[t.key + 1])
    && IsAccount(r.states[t.account], request.accountNumber, account)
    && WritesNothing(r.states[t.account], r.states[t.account + 1])
    && match t.merchant
       case None => request.TransferRequest? && merchant == None && Rests(r, t.account + 1, n, i)
       case Some(f) =>
         && t.account < f < n && TurnOf(r, f, i) && Rests(r, t.account + 1, f, i) && Rests(r, f + 1, n, i)
         && request.QrisRequest? && r.steps[f].reply.FoundMerchant? && merchant == Some(r.steps[f].reply.id)
         && WritesNothing(r.states[f], r.states[f + 1])
  }

  lemma NothingBefore(cfg: Config, r: Run, n: nat, i: nat)
    requires ValidRun(cfg, r) && n < |r.states| && i < |r.states[n].intakes| && r.states[n].intakes[i].pc.LookupKey?
    ensures Rests(r, 0, n, i)
  {
    var moved := (pc: IntakePc) => !pc.LookupKey?;
    var kind := (s: State, reply: Reply) => true;
    forall s, reply | IntakeEnabled(s, i, reply)
      ensures moved(IntakeGoto(s, i, reply)) <==> moved(s.intakes[i].pc) || kind(s, reply)
    {
      AlwaysMoves(s, i, reply);
    }
    StandsByTurns(cfg, r, n, i, moved, kind);
    forall j: nat | j < n ensures !TurnOf(r, j, i) {
      assert TurnOf(r, j, i) ==> TurnLike(r, j, i, kind);
    }
  }

  lemma AlwaysMoves(s: State, i: nat, reply: Reply)
    requires IntakeEnabled(s, i, reply)
    ensures !IntakeGoto(s, i, reply).LookupKey?
  {
  }

  lemma LoadTrail(cfg: Config, r: Run, n: nat, i: nat) returns (lookup: nat)
    requires ValidRun(cfg, r) && n < |r.states| && i < |r.states[n].intakes| && r.states[n].intakes[i].pc.LoadAccount?
    ensures lookup < n && TurnOf(r, lookup, i) && Rests(r, 0, lookup, i) && Rests(r, lookup + 1, n, i)
    ensures Free(r.states[lookup], r.states[n].intakes[i].request.key) && WritesNothing(r.states[lookup], r.states[lookup + 1])
  {
    lookup := LastTurn(cfg, r, n, i);
    IntakeMoves(r.states[lookup], i, r.steps[lookup].reply);
    IntoLoadAccount(r.states[lookup], i, r.steps[lookup].reply);
    NothingBefore(cfg, r, lookup, i);
  }

  lemma IntakeMoves(s: State, i: nat, reply: Reply)
    requires IntakeEnabled(s, i, reply)
    ensures i < |IntakeNext(s, i, reply).intakes|
    ensures IntakeNext(s, i, reply).intakes[i] == Intake(s.intakes[i].request, IntakeGoto(s, i, reply))
  {
    PerformIntakes(s, IntakeEffect(s, i, reply));
  }

  lemma SeekTrail(cfg: Config, r: Run, n: nat, i: nat) returns (t: Lookups)
    requires ValidRun(cfg, r) && n < |r.states| && i < |r.states[n].intakes| && r.states[n].intakes[i].pc.Insert?
    ensures Sought(r, n, i, r.states[n].intakes[i].request, r.states[n].intakes[i].pc.account, r.states[n].intakes[i].pc.merchant, t)
  {
    var last := LastTurn(cfg, r, n, i);
    IntakeMoves(r.states[last], i, r.steps[last].reply);
    IntoInsert(r.states[last], i, r.steps[last].reply);
    if r.states[last].intakes[i].pc.LoadAccount? {
      var key := LoadTrail(cfg, r, last, i);
      t := Lookups(key, last, None);
    } else {
      var load := LastTurn(cfg, r, last, i);
      IntakeMoves(r.states[load], i, r.steps[load].reply);
      IntoResolve(r.states[load], i, r.steps[load].reply);
      var key := LoadTrail(cfg, r, load, i);
      t := Lookups(key, load, Some(last));
    }
  }

  // The turns that offered a new row, from the insert to the last event.
  ghost predicate Offered(r: Run, n: nat, i: nat, tx: TxId, request: Request, account: nat, merchant: Option<nat>, t: Writes) {
    && t.insert < t.created < t.cached < t.published < t.enqueued < n
    && TurnOf(r, t.insert, i) && TurnOf(r, t.created, i) && TurnOf(r, t.cached, i)
    && TurnOf(r, t.published, i) && TurnOf(r, t.enqueued, i)
    && Rests(r, t.insert + 1, t.created, i) && Rests(r, t.created + 1, t.cached, i) && Rests(r, t.cached + 1, t.published, i)
    && Rests(r, t.published + 1, t.enqueued, i) && Rests(r, t.enqueued + 1, n, i)
    && var requestedAt := r.states[t.insert].now;
    && tx == |r.states[t.insert].rows| && Free(r.states[t.insert], request.key) && request.amount > 0
    && InsertsRow(r.states[t.insert], r.states[t.insert + 1], i, request, account, merchant)
    && LogsEvent(r.states[t.created], r.states[t.created + 1], tx, CreationEvent(request))
    && Caches(r.states[t.cached], r.states[t.cached + 1], Entry(tx, Processing, requestedAt, None, requestedAt))
    && PublishesJob(r.states[t.published], r.states[t.published + 1], tx, account, merchant, request)
    && TriesToLog(r, t.enqueued, tx, Event(Enqueued, NoDestination))
  }

  // The insert and the creation event of a row that is about to be cached.
  lemma InsertTrail(cfg: Config, r: Run, n: nat, i: nat) returns (insert: nat, created: nat)
    requires ValidRun(cfg, r) && n < |r.states| && i < |r.states[n].intakes| && r.states[n].intakes[i].pc.CacheNew?
    ensures insert < created < n && TurnOf(r, insert, i) && TurnOf(r, created, i)
    ensures Rests(r, insert + 1, created, i) && Rests(r, created + 1, n, i)
    ensures
      var request, tx, s := r.states[n].intakes[i].request, r.states[n].intakes[i].pc.tx, r.states[insert];
      && i < |s.intakes| && s.intakes[i].pc.Insert? && s.intakes[i].request == request
      && tx == |s.rows| && Free(s, request.key) && request.amount > 0
      && InsertsRow(s, r.states[insert + 1], i, request, s.intakes[i].pc.account, s.intakes[i].pc.merchant)
      && LogsEvent(r.states[created], r.states[created + 1], tx, CreationEvent(request))
  {
    created := LastTurn(cfg, r, n, i);
    IntakeMoves(r.states[created], i, r.steps[created].reply);
    IntoCacheNew(r.states[created], i, r.steps[created].reply);
    insert := LastTurn(cfg, r, created, i);
    IntakeMoves(r.states[insert], i, r.steps[insert].reply);
    IntoWriteCreated(r.states[insert], i, r.steps[insert].reply);
  }

  // The cache write before a publish.
  lemma CacheTrail(cfg: Config, r: Run, n: nat, i: nat) returns (cached: nat)
    requires ValidRun(cfg, r) && n < |r.states| && i < |r.states[n].intakes| && r.states[n].intakes[i].pc.Publish?
    ensures cached < n && TurnOf(r, cached, i) && Rests(r, cached + 1, n, i)
    ensures
      var tx, s := r.states[n].intakes[i].pc.tx, r.states[cached];
      && i < |s.intakes| && s.intakes[i] == Intake(r.states[n].intakes[i].request, CacheNew(tx))
      && tx < |s.rows| && |s.rows[tx].versions| > 0
      && var first := s.rows[tx].versions[0];
         Caches(s, r.states[cached + 1], Entry(tx, first.status, s.rows[tx].requestedAt, first.processedAt, first.updatedAt))
  {
    cached := LastTurn(cfg, r, n, i);
    IntakeMoves(r.states[cached], i, r.steps[cached].reply);
    IntoPublish(r.states[cached], i, r.steps[cached].reply);
  }

  // The publish and the last event of an accepted call.
  lemma PublishTrail(cfg: Config, r: Run, n: nat, i: nat, tx: TxId) returns (published: nat, enqueued: nat)
    requires ValidRun(cfg, r) && n < |r.states| && Accepted(r.states[n], i, tx)
    ensures published < enqueued < n && TurnOf(r, published, i) && TurnOf(r, enqueued, i)
    ensures Rests(r, published + 1, enqueued, i) && Rests(r, enqueued + 1, n, i)
    ensures
      var s := r.states[published];
      && i < |s.intakes| && s.intakes[i] == Intake(r.states[n].intakes[i].request, Publish(tx)) && tx < |s.rows|
      && PublishesJob(s, r.states[published + 1], tx, s.rows[tx].account, s.rows[tx].merchant, s.intakes[i].request)
    ensures TriesToLog(r, enqueued, tx, Event(Enqueued, NoDestination))
  {
    enqueued := LastTurn(cfg, r, n, i);
    IntakeMoves(r.states[enqueued], i, r.steps[enqueued].reply);
    IntoCreated(r.states[enqueued], i, r.steps[enqueued].reply, tx);
    published := LastTurn(cfg, r, enqueued, i);
    IntakeMoves(r.states[published], i, r.steps[published].reply);
    IntoWriteEnqueued(r.states[published], i, r.steps[published].reply);
  }

  // A row keeps what it was inserted with.
  lemma RowStays(cfg: Config, r: Run, insert: nat, n: nat, i: nat, request: Request, account: nat, merchant: Option<nat>)
    requires ValidConfig(cfg) && ValidRun(cfg, r) && insert < n < |r.states|
    requires InsertsRow(r.states[insert], r.states[insert + 1], i, request, account, merchant)
    ensures
      var tx, at := |r.states[insert].rows|, r.states[insert].now;
      && tx < |r.states[n].rows|
      && var row := r.states[n].rows[tx];
      && row.key == request.key && row.account == account && row.merchant == merchant && row.amount == request.amount
      && row.requestedAt == at && |row.versions| > 0 && row.versions[0] == Version(Processing, None, at)
  {
    RunGrows(cfg, r, insert + 1, n);
    var tx := |r.states[insert].rows|;
    RowInserted(r.states[insert], r.states[insert + 1], i, request, account, merchant);
    assert RowGrows(r.states[insert + 1].rows[tx], r.states[n].rows[tx]);
  }

  lemma RowInserted(s: State, s': State, i: nat, request: Request, account: nat, merchant: Option<nat>)
    requires InsertsRow(s, s', i, request, account, merchant)
    ensures |s'.rows| == |s.rows| + 1
    ensures s'.rows[|s.rows|] ==
            Row(request.key, account, merchant, request.amount, s.now, [Version(Processing, None, s.now)], [], i, None)
  {
    assert Tables(s').rows == s'.rows;
  }

  // The publish of a row that intake i has inserted, with what came before it.
  lemma CachedTrail(cfg: Config, r: Run, n: nat, i: nat) returns (insert: nat, created: nat, cached: nat)
    requires ValidConfig(cfg) && ValidRun(cfg, r) && n < |r.states|
    requires i < |r.states[n].intakes| && r.states[n].intakes[i].pc.Publish?
    ensures insert < created < cached < n && TurnOf(r, insert, i) && TurnOf(r, created, i) && TurnOf(r, cached, i)
    ensures Rests(r, insert + 1, created, i) && Rests(r, created + 1, cached, i) && Rests(r, cached + 1, n, i)
    ensures
      var request, tx, s := r.states[n].intakes[i].request, r.states[n].intakes[i].pc.tx, r.states[insert];
      && i < |s.intakes| && s.intakes[i].pc.Insert? && s.intakes[i].request == request
      && tx == |s.rows| && Free(s, request.key) && request.amount > 0
      && InsertsRow(s, r.states[insert + 1], i, request, s.intakes[i].pc.account, s.intakes[i].pc.merchant)
      && LogsEvent(r.states[created], r.states[created + 1], tx, CreationEvent(request))
      && Caches(r.states[cached], r.states[cached + 1], Entry(tx, Processing, s.now, None, s.now))
  {
    cached := CacheTrail(cfg, r, n, i);
    insert, created := InsertTrail(cfg, r, cached, i);
    var request, pc := r.states[n].intakes[i].request, r.states[insert].intakes[i].pc;
    RowStays(cfg, r, insert, cached, i, request, pc.account, pc.merchant);
  }

  lemma OfferTrail(cfg: Config, r: Run, n: nat, i: nat, tx: TxId) returns (t: Writes)
    requires ValidConfig(cfg) && ValidRun(cfg, r) && n < |r.states| && Accepted(r.states[n], i, tx)
    ensures t.insert < n && i < |r.states[t.insert].intakes| && r.states[t.insert].intakes[i].pc.Insert?
    ensures r.states[t.insert].intakes[i].request == r.states[n].intakes[i].request
    ensures Offered(r, n, i, tx, r.states[n].intakes[i].request, r.states[t.insert].intakes[i].pc.account,
                    r.states[t.insert].intakes[i].pc.merchant, t)
  {
    var published, enqueued := PublishTrail(cfg, r, n, i, tx);
    var insert, created, cached := CachedTrail(cfg, r, published, i);
    t := Writes(insert, created, cached, published, enqueued);
    var request, pc := r.states[n].intakes[i].request, r.states[insert].intakes[i].pc;
    RowStays(cfg, r, insert, published, i, request, pc.account, pc.merchant);
  }

  // Everything an accepted call did, in order: it found its key free, loaded its
  // account and for QRIS found its merchant; then it inserted a PROCESSING row
  // of just these, logged the creation, cached PROCESSING, published one job
  // and tried to log that. It did nothing else.
  lemma CreatedTrail(cfg: Config, r: Run, n: nat, i: nat, tx: TxId)
    returns (account: nat, merchant: Option<nat>, lookups: Lookups, writes: Writes)
    requires ValidConfig(cfg) && ValidRun(cfg, r) && n < |r.states| && Accepted(r.states[n], i, tx)
    ensures
      var request := r.states[n].intakes[i].request;
      && Sought(r, writes.insert, i, request, account, merchant, lookups)
      && Offered(r, n, i, tx, request, account, merchant, writes)
  {
    writes := OfferTrail(cfg, r, n, i, tx);
    var pc := r.states[writes.insert].intakes[i].pc;
    account, merchant := pc.account, pc.merchant;
    lookups := SeekTrail(cfg, r, writes.insert, i);
  }

  // A call of either service that no obstacle met ends as "created", with a row
  // of exactly the requested key and amount, of the account of its number, and
  // of the merchant that its own resolution found; a transfer has none. Its
  // creation is the first event, its first version is PROCESSING, and the job
  // published for it carries all of this.
  lemma UnhinderedIsCreated(cfg: Config, r: Run, n: nat, i: nat)
    requires ValidConfig(cfg) && ValidRun(cfg, r) && n < |r.states| && i < |r.states[n].intakes| && r.states[n].intakes[i].pc.Done?
    requires forall j: nat :: j < n && TurnOf(r, j, i) ==> !Obstacle(r.states[j], i, r.steps[j].reply)
    ensures r.states[n].intakes[i].pc.outcome.Created?
    ensures
      var s, request := r.states[n], r.states[n].intakes[i].request;
      var tx := r.states[n].intakes[i].pc.outcome.tx;
      && tx < |s.rows| && s.rows[tx].key == request.key && s.rows[tx].amount == request.amount
      && request.accountNumber in s.accounts && s.rows[tx].account == s.accounts[request.accountNumber]
      && (request.TransferRequest? ==> s.rows[tx].merchant == None)
      && (request.QrisRequest? ==>
            exists f: nat :: f < n && TurnOf(r, f, i) && r.steps[f].reply.FoundMerchant? &&
                             s.rows[tx].merchant == Some(r.steps[f].reply.id))
      && |s.rows[tx].versions| > 0 && s.rows[tx].versions[0].status == Processing
      && |s.rows[tx].events| > 0 && s.rows[tx].events[0] == CreationEvent(request)
      && s.rows[tx].birth.Some? && s.rows[tx].birth.value.copy < |s.copies|
      && s.copies[s.rows[tx].birth.value.copy].msg.body == Job(tx, s.rows[tx].account, s.rows[tx].merchant, request)
  {
    CreatedExactly(cfg, r, n, i);
    var tx := r.states[n].intakes[i].pc.outcome.tx;
    var account, merchant, lookups, writes := CreatedTrail(cfg, r, n, i, tx);
    RowStays(cfg, r, writes.insert, n, i, r.states[n].intakes[i].request, account, merchant);
    RunGrows(cfg, r, lookups.account, n);
    RunKeepsInv(cfg, r, n);
    CreationLogged(cfg, r.states[n], i, tx);
    JobStays(cfg, r, writes.published, n, tx, account, merchant, r.states[n].intakes[i].request);
  }

  lemma CreationLogged(cfg: Config, s: State, i: nat, tx: TxId)
    requires Inv(cfg, s) && Accepted(s, i, tx)
    ensures tx < |s.rows| && |s.rows[tx].events| > 0 && s.rows[tx].events[0] == CreationEvent(s.intakes[i].request)
  {
    assert IntakeOk(s, i) && RowOk(s, tx) && EventsOk(s, tx);
  }

  // A published job stays in its queue or moves on, and keeps its body.
  lemma JobStays(cfg: Config, r: Run, k: nat, n: nat, tx: TxId, account: nat, merchant: Option<nat>, request: Request)
    requires ValidConfig(cfg) && ValidRun(cfg, r) && k < n < |r.states|
    requires PublishesJob(r.states[k], r.states[k + 1], tx, account, merchant, request)
    ensures
      var s := r.states[n];
      && tx < |s.rows| && s.rows[tx].birth.Some? && s.rows[tx].birth.value.copy < |s.copies|
      && s.copies[s.rows[tx].birth.value.copy].msg.body == Job(tx, account, merchant, request)
  {
    RunGrows(cfg, r, k + 1, n);
    JobPublished(r.states[k], r.states[k + 1], tx, account, merchant, request);
    assert RowGrows(r.states[k + 1].rows[tx], r.states[n].rows[tx]);
  }

  lemma JobPublished(s: State, s': State, tx: TxId, account: nat, merchant: Option<nat>, request: Request)
    requires PublishesJob(s, s', tx, account, merchant, request)
    ensures |s'.copies| == |s.copies| + 1 && s'.copies[|s.copies|].msg.body == Job(tx, account, merchant, request)
    ensures tx < |s'.rows| && s'.rows[tx].birth == Some(Birth(s.now, |s.copies|))
  {
    assert Tables(s').rows == s'.rows && Tables(s').copies == s'.copies;
  }

  /******* A failed publish *******/

  lemma AfterPublish(s: State, i: nat, reply: Reply)
    requires IntakeEnabled(s, i, reply) && s.intakes[i].pc.Publish? && reply == Broken
    ensures IntakeGoto(s, i, reply) == CompensateRow(s.intakes[i].pc.tx) && WritesNothing(s, IntakeNext(s, i, reply))
  {
  }

  lemma AfterCompensateRow(s: State, i: nat, reply: Reply)
    requires IntakeEnabled(s, i, reply) && s.intakes[i].pc.CompensateRow?
    ensures
      var tx, s' := s.intakes[i].pc.tx, IntakeNext(s, i, reply);
      if reply == Broken then IntakeGoto(s, i, reply) == CompensateEvent(tx) && WritesNothing(s, s')
      else
        && WritesStatus(s, s', tx, Failed)
        && IntakeGoto(s, i, reply) == CompensateCache(tx, FailureEntry(s, tx))
  {
  }

  lemma AfterCompensateCache(s: State, i: nat, reply: Reply)
    requires IntakeEnabled(s, i, reply) && s.intakes[i].pc.CompensateCache?
    ensures IntakeGoto(s, i, reply) == CompensateEvent(s.intakes[i].pc.tx)
    ensures if reply == Broken then WritesNothing(s, IntakeNext(s, i, reply))
            else Caches(s, IntakeNext(s, i, reply), s.intakes[i].pc.entry)
  {
  }

  lemma AfterCompensateEvent(s: State, i: nat, reply: Reply)
    requires IntakeEnabled(s, i, reply) && s.intakes[i].pc.CompensateEvent?
    ensures IntakeGoto(s, i, reply) == Done(Failure)
    ensures if reply == Broken then WritesNothing(s, IntakeNext(s, i, reply))
            else LogsEvent(s, IntakeNext(s, i, reply), s.intakes[i].pc.tx, Event(QueueError, NoDestination))
  {
  }

  // Turns of a compensation: the row's failure, its cache entry if the row
  // could be failed, and the event.
  datatype Amends = Amends(row: nat, cached: Option<nat>, event: nat)

  function FailureEntry(s: State, tx: TxId): Entry
    requires tx < |s.rows|
  {
    Entry(tx, Status.Failed, s.rows[tx].requestedAt, Some(s.now), s.now)
  }

  // The row is failed and that is cached, as far as these calls succeed, and
  // the failed publish is logged; there is no message.
  ghost predicate Compensated(r: Run, n: nat, i: nat, tx: TxId, t: Amends) {
    && t.row < t.event < n && TurnOf(r, t.row, i) && TurnOf(r, t.event, i)
    && Rests(r, t.event + 1, n, i)
    && tx < |r.states[t.row].rows|
    && (match t.cached
        case None =>
          && r.steps[t.row].reply == Broken && WritesNothing(r.states[t.row], r.states[t.row + 1])
          && Rests(r, t.row + 1, t.event, i)
        case Some(c) =>
          && WritesStatus(r.states[t.row], r.states[t.row + 1], tx, Failed)
          && t.row < c < t.event && TurnOf(r, c, i) && Rests(r, t.row + 1, c, i) && Rests(r, c + 1, t.event, i)
          && TriesToCache(r, c, FailureEntry(r.states[t.row], tx)))
    && TriesToLog(r, t.event, tx, Event(QueueError, NoDestination))
  }

  // A call whose publish fails ends as an error after these turns.
  lemma FailedPublishTrail(cfg: Config, r: Run, d: nat, n: nat, i: nat, tx: TxId) returns (t: Amends)
    requires ValidRun(cfg, r) && d < n < |r.states| && TurnOf(r, d, i) && r.steps[d].reply == Broken
    requires i < |r.states[d].intakes| && r.states[d].intakes[i].pc == Publish(tx)
    requires i < |r.states[n].intakes| && r.states[n].intakes[i].pc.Done?
    ensures r.states[n].intakes[i].pc.outcome == Failure
    ensures d < t.row && Rests(r, d + 1, t.row, i) && Compensated(r, n, i, tx, t)
  {
    assert StepAt(cfg, r, d);
    AfterPublish(r.states[d], i, Broken);
    IntakeMoves(r.states[d], i, Broken);
    var row := NextTurn(cfg, r, d + 1, n, i);
    t := AmendsFrom(cfg, r, row, n, i, tx);
  }

  lemma AmendsFrom(cfg: Config, r: Run, row: nat, n: nat, i: nat, tx: TxId) returns (t: Amends)
    requires ValidRun(cfg, r) && row < n < |r.states| && TurnOf(r, row, i)
    requires i < |r.states[row].intakes| && r.states[row].intakes[i].pc == CompensateRow(tx)
    requires IntakeEnabled(r.states[row], i, r.steps[row].reply)
    requires r.states[row + 1] == IntakeNext(r.states[row], i, r.steps[row].reply)
    requires i < |r.states[n].intakes| && r.states[n].intakes[i].pc.Done?
    ensures r.states[n].intakes[i].pc.outcome == Failure
    ensures t.row == row && Compensated(r, n, i, tx, t)
  {
    if r.steps[row].reply == Broken {
      t := AmendsWithoutRow(cfg, r, row, n, i, tx);
    } else {
      t := AmendsWithRow(cfg, r, row, n, i, tx);
    }
  }

  lemma AmendsWithoutRow(cfg: Config, r: Run, row: nat, n: nat, i: nat, tx: TxId) returns (t: Amends)
    requires ValidRun(cfg, r) && row < n < |r.states| && TurnOf(r, row, i) && r.steps[row].reply == Broken
    requires IntakeEnabled(r.states[row], i, Broken) && r.states[row].intakes[i].pc == CompensateRow(tx)
    requires r.states[row + 1] == IntakeNext(r.states[row], i, Broken)
    requires i < |r.states[n].intakes| && r.states[n].intakes[i].pc.Done?
    ensures r.states[n].intakes[i].pc.outcome == Failure
    ensures t.row == row && Compensated(r, n, i, tx, t)
  {
    AfterCompensateRow(r.states[row], i, Broken);
    IntakeMoves(r.states[row], i, Broken);
    var event := LogTrail(cfg, r, row + 1, n, i, tx);
    t := Amends(row, None, event);
  }

  lemma AmendsWithRow(cfg: Config, r: Run, row: nat, n: nat, i: nat, tx: TxId) returns (t: Amends)
    requires ValidRun(cfg, r) && row < n < |r.states| && TurnOf(r, row, i) && r.steps[row].reply != Broken
    requires IntakeEnabled(r.states[row], i, r.steps[row].reply) && r.states[row].intakes[i].pc == CompensateRow(tx)
    requires r.states[row + 1] == IntakeNext(r.states[row], i, r.steps[row].reply)
    requires i < |r.states[n].intakes| && r.states[n].intakes[i].pc.Done?
    ensures r.states[n].intakes[i].pc.outcome == Failure
    ensures t.row == row && Compensated(r, n, i, tx, t)
  {
    AfterCompensateRow(r.states[row], i, r.steps[row].reply);
    IntakeMoves(r.states[row], i, r.steps[row].reply);
    var c, event := CacheFailureTrail(cfg, r, row + 1, n, i, tx);
    t := Amends(row, Some(c), event);
  }

  lemma CacheFailureTrail(cfg: Config, r: Run, k: nat, n: nat, i: nat, tx: TxId) returns (c: nat, event: nat)
    requires ValidRun(cfg, r) && k <= n < |r.states|
    requires i < |r.states[k].intakes| && r.states[k].intakes[i].pc.CompensateCache? && r.states[k].intakes[i].pc.tx == tx
    requires i < |r.states[n].intakes| && r.states[n].intakes[i].pc.Done?
    ensures r.states[n].intakes[i].pc.outcome == Failure
    ensures k <= c < event < n && TurnOf(r, c, i) && TurnOf(r, event, i)
    ensures Rests(r, k, c, i) && Rests(r, c + 1, event, i) && Rests(r, event + 1, n, i)
    ensures TriesToCache(r, c, r.states[k].intakes[i].pc.entry)
    ensures TriesToLog(r, event, tx, Event(QueueError, NoDestination))
  {
    c := NextTurn(cfg, r, k, n, i);
    AfterCompensateCache(r.states[c], i, r.steps[c].reply);
    IntakeMoves(r.states[c], i, r.steps[c].reply);
    event := LogTrail(cfg, r, c + 1, n, i, tx);
  }

  lemma LogTrail(cfg: Config, r: Run, k: nat, n: nat, i: nat, tx: TxId) returns (event: nat)
    requires ValidRun(cfg, r) && k <= n < |r.states|
    requires i < |r.states[k].intakes| && r.states[k].intakes[i].pc == CompensateEvent(tx)
    requires i < |r.states[n].intakes| && r.states[n].intakes[i].pc.Done?
    ensures r.states[n].intakes[i].pc.outcome == Failure
    ensures k <= event < n && TurnOf(r, event, i) && Rests(r, k, event, i) && Rests(r, event + 1, n, i)
    ensures TriesToLog(r, event, tx, Event(QueueError, NoDestination))
  {
    event := NextTurn(cfg, r, k, n, i);
    AfterCompensateEvent(r.states[event], i, r.steps[event].reply);
    IntakeMoves(r.states[event], i, r.steps[event].reply);
    DoneForever(cfg, r, event + 1, n, i);
  }

  // A finished intake takes no more turns.
  lemma {:induction false} DoneForever(cfg: Config, r: Run, k: nat, n: nat, i: nat)
    requires ValidRun(cfg, r) && k <= n < |r.states| && i < |r.states[k].intakes| && r.states[k].intakes[i].pc.Done?
    ensures i < |r.states[n].intakes| && r.states[n].intakes[i] == r.states[k].intakes[i] && Rests(r, k, n, i)
    decreases n
  {
    if k < n {
      DoneForever(cfg, r, k, n - 1, i);
      assert StepAt(cfg, r, n - 1);
      OthersWait(cfg, r.states[n - 1], r.steps[n - 1], i);
    }
  }
}
