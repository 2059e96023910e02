// The payment pipeline as one step system. Every database, cache and broker
// call made by intake, by the queue workers and by the status reader is one
// step; each may fail, and steps of different calls interleave freely.
module Pipeline {
  import opened Common
  import opened Backoff
  import opened Headers

  type TxId = nat
  type Time = nat

  /******* Database *******/

  datatype Status = Processing | Success | Failed

  datatype Version = Version(status: Status, processedAt: Option<Time>, updatedAt: Time)

  datatype EventKind =
    | QrisCreated | TransferCreated | QueueError | Enqueued
    | WorkerStarted | Succeeded | FailedEvent

  // Event metadata, as far as a replay looks at it.
  datatype Metadata = TransferTo(account: string) | NoDestination | Malformed

  datatype Event = Event(kind: EventKind, metadata: Metadata)

  // When, and as which copy, a transaction's message was first published.
  datatype Birth = Birth(at: Time, copy: nat)

  // A transaction row with its event log. A row's identifier is its position
  // in the table. All past versions are kept; the last one is the row itself.
  // owner is the intake call that inserted the row.
  datatype Row = Row(
    key: string, account: nat, merchant: Option<nat>, amount: int, requestedAt: Time,
    versions: seq<Version>, events: seq<Event>, owner: nat, birth: Option<Birth>)

  function Current(row: Row): Version
    requires |row.versions| > 0
  {
    row.versions[|row.versions| - 1]
  }

  predicate Terminal(status: Status) { status != Processing }

  /******* Cache *******/

  datatype Entry = Entry(tx: TxId, status: Status, requestedAt: Time, processedAt: Option<Time>, updatedAt: Time)

  function EntryOf(tx: TxId, row: Row, v: Version): Entry {
    Entry(tx, v.status, row.requestedAt, v.processedAt, v.updatedAt)
  }

  /******* Intake *******/

  datatype Request =
    | QrisRequest(accountNumber: string, merchantRef: string, amount: int, key: string)
    | TransferRequest(accountNumber: string, toAccount: string, pin: string, amount: int, key: string)

  // A replay says which merchant the call resolved; a transfer has none.
  datatype Outcome =
    | Created(tx: TxId) | Replayed(tx: TxId, merchant: Option<nat>)
    | Conflict | NotProvisioned | MerchantMissing | Failure

  // Where an intake call stands: the next call it will make, with the locals
  // it has gathered.
  datatype IntakePc =
    | LookupKey
    | LoadForReplay(tx: TxId)
    | ResolveForReplay(tx: TxId, account: nat)
    | ListEvents(tx: TxId)
    | LoadAccount
    | ResolveMerchant(account: nat)
    | Insert(account: nat, merchant: Option<nat>)
    | WriteCreated(tx: TxId)
    | CacheNew(tx: TxId)
    | Publish(tx: TxId)
    | WriteEnqueued(tx: TxId)
    | CompensateRow(tx: TxId)
    | CompensateCache(tx: TxId, entry: Entry)
    | CompensateEvent(tx: TxId)
    | Done(outcome: Outcome)

  datatype Intake = Intake(request: Request, pc: IntakePc)

  // The answer an intake's call receives.
  datatype Reply = Okay | Broken | FoundMerchant(id: nat) | NoMerchant

  /******* Broker *******/

  datatype Body = Job(tx: TxId, account: nat, merchant: Option<nat>, request: Request) | Undecodable

  datatype Message = Message(body: Body, headers: Table)

  // Where a message copy is: ready in the primary queue, delivered to a worker
  // and not settled, waiting in the retry queue until due, in the dead-letter
  // queue, or acknowledged.
  datatype Place = Primary | Unacked(worker: nat) | Retry(due: Time) | Dead | Gone

  datatype Copy = Copy(msg: Message, place: Place)

  /******* Workers *******/

  datatype WorkerPc =
    | Decode
    | StartEvent
    | CallLegacy
    | UpdateRow(ok: bool)
    | CacheResult(ok: bool, entry: Entry)
    | DropBalance
    | FinalEvent(ok: bool)
    | PublishRetry
    | AckRetried
    | NackBack
    | RejectBad
    | RejectSpent
    | AckDone
    | RejectDone
    | Finished

  // One handler invocation. attached says whether the channel that delivered
  // the message is still open; a handler whose connection is lost runs on,
  // but can no longer publish a retry or settle its delivery.
  datatype Worker = Worker(msg: Message, copy: nat, attached: bool, pc: WorkerPc)

  // A call of legacy: what was asked, and whether legacy accepted it.
  datatype Call = Call(tx: TxId, ok: bool, request: Request)

  /******* State and steps *******/

  datatype State = State(
    now: Time,
    accounts: map<string, nat>,
    rows: seq<Row>,
    cache: map<TxId, Entry>,
    intakes: seq<Intake>,
    copies: seq<Copy>,
    workers: seq<Worker>,
    fills: multiset<Entry>,
    calls: seq<Call>,
    requeues: seq<TxId>,
    publishes: seq<TxId>,
    invalidations: seq<nat>)

  datatype Step =
    | Tick(d: nat)
    | AddAccount(number: string, account: nat)
    | Arrive(request: Request)
    | IntakeStep(i: nat, reply: Reply)
    | Foreign(headers: Table)
    | Deliver(c: nat)
    | WorkerStep(w: nat, ok: bool)
    | DropConnection(w: nat)
    | Expire(c: nat)
    | ReadRow(tx: TxId)
    | FillCache(entry: Entry, ok: bool)
    | Evict(tx: TxId)

  function Initial(): State {
    State(0, map[], [], map[], [], [], [], multiset{}, [], [], [], [])
  }

  /******* Intake calls *******/

  predicate HasKey(s: State, key: string) {
    exists t :: 0 <= t < |s.rows| && s.rows[t].key == key
  }

  function FindKey(s: State, key: string): (t: TxId)
    requires HasKey(s, key)
    ensures t < |s.rows| && s.rows[t].key == key
    ensures forall u :: 0 <= u < t ==> s.rows[u].key != key
  {
    FirstKey(s.rows, key, 0)
  }

  function FirstKey(rows: seq<Row>, key: string, from: nat): (t: nat)
    requires exists u :: from <= u < |rows| && rows[u].key == key
    requires forall u :: 0 <= u < from <= |rows| ==> rows[u].key != key
    ensures t < |rows| && rows[t].key == key
    ensures forall u :: 0 <= u < t ==> rows[u].key != key
    decreases |rows| - from
  {
    if rows[from].key == key then from else FirstKey(rows, key, from + 1)
  }

  // The destination recorded by the first creation event decides.
  function ReplayMatches(events: seq<Event>, toAccount: string): bool {
    if |events| == 0 then false
    else if events[0].kind != TransferCreated then ReplayMatches(events[1..], toAccount)
    else
      match events[0].metadata
      case TransferTo(account) => account == toAccount
      case NoDestination => "" == toAccount
      case Malformed => false
  }

  function CreatedEvent(request: Request): Event {
    match request
    case QrisRequest(_, _, _, _) => Event(QrisCreated, NoDestination)
    case TransferRequest(_, to, _, _, _) => Event(TransferCreated, TransferTo(to))
  }

  // INSERT INTO transactions: the key is unique and the amount positive.
  predicate InsertAllowed(s: State, request: Request) {
    !HasKey(s, request.key) && request.amount > 0
  }

  function NewRow(s: State, i: nat, request: Request, account: nat, merchant: Option<nat>): Row {
    Row(request.key, account, merchant, request.amount, s.now, [Version(Processing, None, s.now)], [], i, None)
  }

  // The row version, and the cache entry showing it, that a status update
  // made now would produce.
  function NewVersion(s: State, status: Status): Version {
    Version(status, Some(s.now), s.now)
  }

  function NewEntry(s: State, tx: TxId, status: Status): Entry
    requires tx < |s.rows|
  {
    EntryOf(tx, s.rows[tx], NewVersion(s, status))
  }

  function NewJob(s: State, tx: TxId, request: Request): Message
    requires tx < |s.rows|
  {
    Message(Job(tx, s.rows[tx].account, s.rows[tx].merchant, request), InitialHeaders(s.now))
  }

  function CurrentEntry(s: State, tx: TxId): Entry
    requires tx < |s.rows| && |s.rows[tx].versions| > 0
  {
    EntryOf(tx, s.rows[tx], Current(s.rows[tx]))
  }

  /******* Effects: what one successful call does to the shared tables *******/

  datatype Effect =
    | NoEffect
    | InsertRow(row: Row)
    | LogEvent(tx: TxId, event: Event)
    | SetStatus(tx: TxId, status: Status)
    | SetCache(entry: Entry)
    | PublishNew(tx: TxId, request: Request)
    | LogCall(call: Call)
    | DropBalanceOf(account: nat)
    | EnqueueRetry(copy: Copy)
    | Settle(w: nat, place: Place)

  predicate EffectFits(s: State, e: Effect) {
    match e
    case LogEvent(tx, _) => tx < |s.rows|
    case SetStatus(tx, _) => tx < |s.rows|
    case PublishNew(tx, _) => tx < |s.rows|
    case Settle(w, _) => w < |s.workers| && s.workers[w].copy < |s.copies|
    case _ => true
  }

  function RequeueLog(s: State, msg: Message): seq<TxId> {
    if msg.body.Job? then s.requeues + [msg.body.tx] else s.requeues
  }

  function Perform(s: State, e: Effect): State
    requires EffectFits(s, e)
  {
    match e
    case NoEffect => s
    case InsertRow(row) => s.(rows := s.rows + [row])
    case LogEvent(tx, event) => s.(rows := s.rows[tx := s.rows[tx].(events := s.rows[tx].events + [event])])
    case SetStatus(tx, status) =>
      s.(rows := s.rows[tx := s.rows[tx].(versions := s.rows[tx].versions + [NewVersion(s, status)])])
    case SetCache(entry) => s.(cache := s.cache[entry.tx := entry])
    case PublishNew(tx, request) =>
      s.(copies := s.copies + [Copy(NewJob(s, tx, request), Primary)],
         rows := s.rows[tx := s.rows[tx].(birth := Some(Birth(s.now, |s.copies|)))],
         publishes := s.publishes + [tx])
    case LogCall(call) => s.(calls := s.calls + [call])
    case DropBalanceOf(account) => s.(invalidations := s.invalidations + [account])
    case EnqueueRetry(copy) => s.(copies := s.copies + [copy])
    case Settle(w, place) =>
      var c := s.workers[w].copy;
      s.(copies := s.copies[c := s.copies[c].(place := place)],
         workers := s.workers[w := s.workers[w].(attached := false)],
         requeues := if place == Primary then RequeueLog(s, s.workers[w].msg) else s.requeues)
  }

  function AtIntake(s: State, i: nat, pc: IntakePc): State
    requires i < |s.intakes|
  {
    s.(intakes := s.intakes[i := s.intakes[i].(pc := pc)])
  }

  function AtWorker(s: State, w: nat, pc: WorkerPc): State
    requires w < |s.workers|
  {
    s.(workers := s.workers[w := s.workers[w].(pc := pc)])
  }

  // The row an intake call has inserted, if it has come that far and is still
  // going to touch it.
  predicate Owning(pc: IntakePc) {
    pc.WriteCreated? || pc.CacheNew? || pc.Publish? || pc.WriteEnqueued? ||
    pc.CompensateRow? || pc.CompensateCache? || pc.CompensateEvent?
  }

  predicate RefersToRow(pc: IntakePc) {
    Owning(pc) || pc.LoadForReplay? || pc.ResolveForReplay? || pc.ListEvents?
  }

  predicate IntakeEnabled(s: State, i: nat, reply: Reply) {
    && i < |s.intakes|
    && var pc := s.intakes[i].pc;
    && !pc.Done?
    && (RefersToRow(pc) ==> pc.tx < |s.rows| && |s.rows[pc.tx].versions| > 0)
    && (if pc.ResolveMerchant? || pc.ResolveForReplay? then !reply.Okay? else reply.Okay? || reply.Broken?)
  }

  // The call an intake makes next, when it succeeds.
  function IntakeEffect(s: State, i: nat, reply: Reply): Effect
    requires IntakeEnabled(s, i, reply)
  {
    var request := s.intakes[i].request;
    if reply == Broken then NoEffect
    else
      match s.intakes[i].pc
      case Insert(account, merchant) =>
        if InsertAllowed(s, request) then InsertRow(NewRow(s, i, request, account, merchant)) else NoEffect
      case WriteCreated(tx) => LogEvent(tx, CreatedEvent(request))
      case CacheNew(tx) => SetCache(EntryOf(tx, s.rows[tx], s.rows[tx].versions[0]))
      case Publish(tx) => PublishNew(tx, request)
      case WriteEnqueued(tx) => LogEvent(tx, Event(Enqueued, NoDestination))
      case CompensateRow(tx) => SetStatus(tx, Failed)
      case CompensateCache(tx, entry) => SetCache(entry)
      case CompensateEvent(tx) => LogEvent(tx, Event(QueueError, NoDestination))
      case _ => NoEffect
  }

  // Where the intake stands afterwards.
  function IntakeGoto(s: State, i: nat, reply: Reply): IntakePc
    requires IntakeEnabled(s, i, reply)
  {
    var request := s.intakes[i].request;
    match s.intakes[i].pc
    case LookupKey =>
      if reply == Broken then Done(Failure)
      else if HasKey(s, request.key) then LoadForReplay(FindKey(s, request.key))
      else LoadAccount
    case LoadForReplay(tx) =>
      if reply == Broken || request.accountNumber !in s.accounts then Done(Failure)
      else
        var account := s.accounts[request.accountNumber];
        if request.QrisRequest? then ResolveForReplay(tx, account)
        else if s.rows[tx].account != account || s.rows[tx].merchant.Some? || s.rows[tx].amount != request.amount then
          Done(Conflict)
        else ListEvents(tx)
    case ResolveForReplay(tx, account) =>
      if reply == Broken then Done(Failure)
      else if reply == NoMerchant then Done(MerchantMissing)
      else if s.rows[tx].account != account || s.rows[tx].merchant != Some(reply.id) || s.rows[tx].amount != request.amount then
        Done(Conflict)
      else Done(Replayed(tx, Some(reply.id)))
    case ListEvents(tx) =>
      if reply == Broken then Done(Failure)
      else if request.TransferRequest? && ReplayMatches(s.rows[tx].events, request.toAccount) then Done(Replayed(tx, None))
      else Done(Conflict)
    case LoadAccount =>
      if reply == Broken then Done(Failure)
      else if request.accountNumber !in s.accounts then Done(NotProvisioned)
      else if request.QrisRequest? then ResolveMerchant(s.accounts[request.accountNumber])
      else Insert(s.accounts[request.accountNumber], None)
    case ResolveMerchant(account) =>
      if reply == Broken then Done(Failure)
      else if reply == NoMerchant then Done(MerchantMissing)
      else Insert(account, Some(reply.id))
    case Insert(account, merchant) =>
      if reply == Broken || !InsertAllowed(s, request) then Done(Failure) else WriteCreated(|s.rows|)
    case WriteCreated(tx) => if reply == Broken then Done(Failure) else CacheNew(tx)
    case CacheNew(tx) => if reply == Broken then Done(Failure) else Publish(tx)
    case Publish(tx) => if reply == Broken then CompensateRow(tx) else WriteEnqueued(tx)
    case WriteEnqueued(tx) => Done(Created(tx))
    case CompensateRow(tx) =>
      if reply == Broken then CompensateEvent(tx) else CompensateCache(tx, NewEntry(s, tx, Failed))
    case CompensateCache(tx, entry) => CompensateEvent(tx)
    case CompensateEvent(tx) => Done(Failure)
  }

  function IntakeNext(s: State, i: nat, reply: Reply): State
    requires IntakeEnabled(s, i, reply)
  {
    AtIntake(Perform(s, IntakeEffect(s, i, reply)), i, IntakeGoto(s, i, reply))
  }

  /******* Worker calls *******/

  // What the session does with a handler error: give up once the budget is
  // spent, otherwise publish a retry.
  function AfterError(cfg: Config, msg: Message): WorkerPc {
    if RetryCount(msg.headers) + 1 > MaxAttempts(cfg) then RejectSpent else PublishRetry
  }

  function RetryCopy(cfg: Config, s: State, msg: Message): Copy {
    var attempt := RetryCount(msg.headers) + 1;
    Copy(Message(msg.body, RetryHeaders(msg.headers, attempt, s.now)),
         Retry(s.now + ExpirationNanos(cfg, attempt)))
  }

  predicate TouchesBroker(pc: WorkerPc) {
    pc.PublishRetry? || pc.AckRetried? || pc.NackBack? || pc.RejectBad? || pc.RejectSpent? || pc.AckDone? || pc.RejectDone?
  }

  predicate Handling(pc: WorkerPc) {
    pc.StartEvent? || pc.CallLegacy? || pc.UpdateRow? || pc.CacheResult? || pc.DropBalance? || pc.FinalEvent?
  }

  predicate WorkerEnabled(s: State, w: nat, ok: bool) {
    && w < |s.workers|
    && var worker := s.workers[w];
    && worker.copy < |s.copies|
    && !worker.pc.Finished?
    && (Handling(worker.pc) ==> worker.msg.body.Job? && worker.msg.body.tx < |s.rows|)
    && (TouchesBroker(worker.pc) && ok ==> worker.attached)
  }

  // The call a worker makes next, when it succeeds. ok is the answer of that
  // call; a legacy call is logged whatever its answer.
  function WorkerEffect(cfg: Config, s: State, w: nat, ok: bool): Effect
    requires WorkerEnabled(s, w, ok)
  {
    var msg := s.workers[w].msg;
    if s.workers[w].pc.CallLegacy? then LogCall(Call(msg.body.tx, ok, msg.body.request))
    else if !ok then NoEffect
    else
      match s.workers[w].pc
      case StartEvent => LogEvent(msg.body.tx, Event(WorkerStarted, NoDestination))
      case UpdateRow(result) => SetStatus(msg.body.tx, if result then Success else Failed)
      case CacheResult(result, entry) => SetCache(entry)
      case DropBalance => DropBalanceOf(msg.body.account)
      case FinalEvent(result) => LogEvent(msg.body.tx, Event(if result then Succeeded else FailedEvent, NoDestination))
      case PublishRetry => EnqueueRetry(RetryCopy(cfg, s, msg))
      case AckRetried => Settle(w, Gone)
      case NackBack => Settle(w, Primary)
      case RejectBad => Settle(w, Dead)
      case RejectSpent => Settle(w, Dead)
      case AckDone => Settle(w, Gone)
      case RejectDone => Settle(w, Dead)
      case _ => NoEffect
  }

  // Where the worker stands afterwards.
  function WorkerGoto(cfg: Config, s: State, w: nat, ok: bool): WorkerPc
    requires WorkerEnabled(s, w, ok)
  {
    var msg := s.workers[w].msg;
    match s.workers[w].pc
    case Decode => if msg.body.Job? then StartEvent else RejectBad
    case StartEvent => if ok then CallLegacy else AfterError(cfg, msg)
    case CallLegacy => UpdateRow(ok)
    case UpdateRow(result) =>
      if ok then CacheResult(result, NewEntry(s, msg.body.tx, if result then Success else Failed))
      else AfterError(cfg, msg)
    case CacheResult(result, entry) =>
      if !ok then AfterError(cfg, msg) else if result then DropBalance else FinalEvent(false)
    case DropBalance => if ok then FinalEvent(true) else AfterError(cfg, msg)
    case FinalEvent(result) => if ok then AckDone else AfterError(cfg, msg)
    case PublishRetry => if ok then AckRetried else NackBack
    case AckDone => if ok then Finished else RejectDone
    case _ => Finished
  }

  function WorkerNext(cfg: Config, s: State, w: nat, ok: bool): State
    requires WorkerEnabled(s, w, ok)
  {
    AtWorker(Perform(s, WorkerEffect(cfg, s, w, ok)), w, WorkerGoto(cfg, s, w, ok))
  }

  /******* All steps *******/

  predicate Enabled(cfg: Config, s: State, step: Step) {
    match step
    case Tick(_) => true
    case AddAccount(number, _) => number !in s.accounts
    case Arrive(_) => true
    case IntakeStep(i, reply) => IntakeEnabled(s, i, reply)
    case Foreign(_) => true
    case Deliver(c) => c < |s.copies| && s.copies[c].place == Primary
    case WorkerStep(w, ok) => WorkerEnabled(s, w, ok)
    case DropConnection(w) => w < |s.workers| && s.workers[w].attached && s.workers[w].copy < |s.copies|
    case Expire(c) => c < |s.copies| && s.copies[c].place.Retry? && s.copies[c].place.due <= s.now
    case ReadRow(tx) => tx < |s.rows| && tx !in s.cache && |s.rows[tx].versions| > 0
    case FillCache(entry, _) => entry in s.fills
    case Evict(tx) => tx in s.cache
  }

  function Apply(cfg: Config, s: State, step: Step): State
    requires Enabled(cfg, s, step)
  {
    match step
    case Tick(d) => s.(now := s.now + d)
    case AddAccount(number, account) => s.(accounts := s.accounts[number := account])
    case Arrive(request) => s.(intakes := s.intakes + [Intake(request, LookupKey)])
    case IntakeStep(i, reply) => IntakeNext(s, i, reply)
    case Foreign(headers) => s.(copies := s.copies + [Copy(Message(Undecodable, headers), Primary)])
    case Deliver(c) =>
      s.(copies := s.copies[c := s.copies[c].(place := Unacked(|s.workers|))],
         workers := s.workers + [Worker(s.copies[c].msg, c, true, Decode)])
    case WorkerStep(w, ok) => WorkerNext(cfg, s, w, ok)
    case DropConnection(w) =>
      var c := s.workers[w].copy;
      s.(copies := s.copies[c := s.copies[c].(place := Primary)],
         workers := s.workers[w := s.workers[w].(attached := false)],
         requeues := RequeueLog(s, s.workers[w].msg))
    case Expire(c) => s.(copies := s.copies[c := s.copies[c].(place := Primary)])
    case ReadRow(tx) => s.(fills := s.fills + multiset{CurrentEntry(s, tx)})
    case FillCache(entry, ok) =>
      var s' := s.(fills := s.fills - multiset{entry});
      if ok then s'.(cache := s'.cache[entry.tx := entry]) else s'
    case Evict(tx) => s.(cache := s.cache - {tx})
  }

  predicate Follows(cfg: Config, s: State, step: Step, s': State) {
    Enabled(cfg, s, step) && s' == Apply(cfg, s, step)
  }

  // A run; states[k] is the state before steps[k].
  datatype Run = Run(states: seq<State>, steps: seq<Step>)

  // Runs start from the empty system.
  ghost predicate ValidRun(cfg: Config, r: Run) {
    && |r.states| == |r.steps| + 1
    && r.states[0] == Initial()
    && forall k :: 0 <= k < |r.steps| ==> StepAt(cfg, r, k)
  }

  predicate StepAt(cfg: Config, r: Run, k: nat) {
    k < |r.steps| && k + 1 < |r.states| && Follows(cfg, r.states[k], r.steps[k], r.states[k + 1])
  }
}
