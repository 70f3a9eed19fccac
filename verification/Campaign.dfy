/**
 The campaign delivery protocol as a state machine. Any number of workers run the same send
 loop; every database statement, every read of an eligibility table, the call to the provider
 and its answer is one atomic step, and a worker may crash between any two of them.
 */
module Campaign {
  import opened Common
  import opened Consent

  // --- Tables -------------------------------------------------------------------------------

  datatype DeliveryStatus = Queued | Sending | Sent | Failed | Unsubscribed | Unconfirmed | DeadLetter

  predicate Terminal(s: DeliveryStatus) {
    s == Sent || s == Unsubscribed || s == Unconfirmed || s == DeadLetter
  }

  predicate Waiting(s: DeliveryStatus) {
    s == Queued || s == Failed
  }

  /** One row of campaign_deliveries, keyed elsewhere by its idempotency key. */
  datatype Delivery = Delivery(
    campaign: Id, config: Id, customer: Id, channel: Channel, status: DeliveryStatus,
    attempts: nat, maxAttempts: nat, nextAttempt: Option<Time>, queuedAt: Time,
    sentAt: Option<Time>, updatedAt: Time)

  /** A provider configuration: its limits, and the channels both it and its adapter support. */
  datatype Provider = Provider(perMinute: int, batchSize: int, maxAttempts: nat, channels: set<Channel>)

  /** Which configuration each campaign uses. */
  datatype Setup = Setup(configOf: map<Id, Id>, providers: map<Id, Provider>)

  predicate Configured(setup: Setup, campaign: Id) {
    campaign in setup.configOf && setup.configOf[campaign] in setup.providers
  }

  function ProviderOf(setup: Setup, campaign: Id): Provider
    requires Configured(setup, campaign)
  {
    setup.providers[setup.configOf[campaign]]
  }

  type Rows = map<Id, Delivery>

  // --- The statements -----------------------------------------------------------------------

  const UNCONFIRMED_AFTER := 600000
  const MINUTE := 60000

  function SweepRow(r: Delivery, campaign: Id, now: Time): Delivery {
    if r.campaign == campaign && r.status == Sending && r.updatedAt < now - UNCONFIRMED_AFTER
    then r.(status := Unconfirmed, nextAttempt := None, updatedAt := now) else r
  }

  function UnregisteredRow(r: Delivery, campaign: Id, now: Time): Delivery {
    if r.campaign == campaign && Waiting(r.status)
    then r.(status := Failed, nextAttempt := Some(now + 300000), updatedAt := now) else r
  }

  function Unsubscribe(r: Delivery, phase: Phase, now: Time): Delivery {
    if (if phase == First then Waiting(r.status) else r.status == Sending)
    then r.(status := Unsubscribed, updatedAt := now) else r
  }

  predicate Claimable(r: Delivery) {
    Waiting(r.status) && r.attempts < r.maxAttempts
  }

  function Claimed(r: Delivery, now: Time): Delivery {
    if Claimable(r) then r.(status := Sending, attempts := r.attempts + 1, updatedAt := now) else r
  }

  function Pow2(n: nat): nat {
    if n == 0 then 1 else 2 * Pow2(n - 1)
  }

  function RetryDelay(attempts: nat): nat {
    Min(3600000, 30000 * Pow2(Min(attempts, 7)))
  }

  /** failDelivery: `attempts` and `maxAttempts` come from the worker's snapshot, not the row. */
  function FailRow(r: Delivery, attempts: nat, maxAttempts: nat, retryable: bool, now: Time): Delivery {
    if Waiting(r.status) || r.status == Sending then
      if !retryable || attempts >= maxAttempts
      then r.(status := DeadLetter, nextAttempt := None, updatedAt := now)
      else r.(status := Failed, nextAttempt := Some(now + RetryDelay(attempts)), updatedAt := now)
    else r
  }

  /** What the provider's adapter answers: it threw, or it returned a result. */
  datatype Reply = Accepted | Refused(retryable: bool) | Unclear | Threw

  function RecordRow(r: Delivery, reply: Reply, attempts: nat, maxAttempts: nat, now: Time): Delivery {
    match reply
    case Accepted => if r.status == Sending
                     then r.(status := Sent, sentAt := Some(now), nextAttempt := None, updatedAt := now) else r
    case Refused(retryable) => FailRow(r, attempts + 1, maxAttempts, retryable, now)
    case _ => if r.status == Sending then r.(status := Unconfirmed, nextAttempt := None, updatedAt := now) else r
  }

  // --- Selection ----------------------------------------------------------------------------

  /** Messages of one configuration sent in the closed 60-second window that begins at `lo`. */
  function Window(rows: Rows, config: Id, lo: Time): set<Id> {
    set d | d in rows && rows[d].config == config && rows[d].sentAt.Some? && lo <= rows[d].sentAt.value <= lo + MINUTE
  }

  function SentSince(rows: Rows, config: Id, lo: Time): set<Id> {
    set d | d in rows && rows[d].config == config && rows[d].sentAt.Some? && lo <= rows[d].sentAt.value
  }

  function Allowance(rows: Rows, config: Id, p: Provider, now: Time): nat {
    Max(0, Min(p.batchSize, p.perMinute - |SentSince(rows, config, now - MINUTE)|))
  }

  predicate Due(r: Delivery, campaign: Id, now: Time) {
    && r.campaign == campaign && Waiting(r.status) && r.attempts < r.maxAttempts
    && (r.nextAttempt.None? || r.nextAttempt.value <= now)
  }

  /** `ids` answers the selection query: due rows, oldest first, at most `limit` of them. */
  ghost predicate IsSelection(rows: Rows, campaign: Id, now: Time, limit: nat, ids: seq<Id>) {
    && |ids| <= limit
    && (forall i :: 0 <= i < |ids| ==> ids[i] in rows && Due(rows[ids[i]], campaign, now))
    && (forall i, j :: 0 <= i < j < |ids| ==> ids[i] != ids[j] && rows[ids[i]].queuedAt <= rows[ids[j]].queuedAt)
    && (forall d :: d in rows && Due(rows[d], campaign, now) && d !in ids
          ==> |ids| == limit && forall i :: 0 <= i < |ids| ==> rows[ids[i]].queuedAt <= rows[d].queuedAt)
  }

  // --- Workers ------------------------------------------------------------------------------

  /** The columns a worker copied when it selected its batch. */
  datatype Snapshot = Snapshot(id: Id, customer: Id, channel: Channel, attempts: nat, maxAttempts: nat)

  /** Eligibility is checked before the claim and again between the claim and the call. */
  datatype Phase = First | Second

  datatype Task =
    | NextItem
    | Checking(phase: Phase, stage: nat)
    | Ineligible(phase: Phase)
    | Claiming
    | Ready
    | Calling(call: nat)
    | Recording(reply: Reply)

  /** A call of processCampaign reads the configuration once, counts the last minute once, and keeps
      the channels it read for its whole batch. */
  datatype Worker =
    | Idle
    | Loaded(campaign: Id, provider: Provider)
    | Counted(campaign: Id, channels: set<Channel>, allowance: nat)
    | Working(campaign: Id, channels: set<Channel>, todo: seq<Snapshot>, task: Task)

  /** What is known of one call to the provider. */
  datatype Call = InFlight | DefinitelyFailed | Delivered | Doubtful

  function Outcome(reply: Reply): Call {
    match reply
    case Accepted => Delivered
    case Refused(_) => DefinitelyFailed
    case _ => Doubtful
  }

  /** `calls` is the history of provider calls of each delivery. */
  datatype World = World(setup: Setup, rows: Rows, crm: Crm, workers: map<Id, Worker>, calls: map<Id, seq<Call>>)

  function CallsOf(w: World, d: Id): seq<Call> {
    if d in w.calls then w.calls[d] else []
  }

  function WorkerOf(w: World, v: Id): Worker {
    if v in w.workers then w.workers[v] else Idle
  }

  function SnapshotOf(d: Id, r: Delivery): Snapshot {
    Snapshot(d, r.customer, r.channel, r.attempts, r.maxAttempts)
  }

  function Snapshots(rows: Rows, ids: seq<Id>): seq<Snapshot>
    requires forall i :: 0 <= i < |ids| ==> ids[i] in rows
  {
    seq(|ids|, i requires 0 <= i < |ids| => SnapshotOf(ids[i], rows[ids[i]]))
  }

  // --- Steps --------------------------------------------------------------------------------

  datatype Step =
    | Enqueue(key: Id, campaign: Id, customer: Id, channel: Channel, now: Time)
    | Sweep(campaign: Id, now: Time)
    | Unregistered(campaign: Id, now: Time)
    | Load(v: Id, campaign: Id)
    | Count(v: Id, counted: Time)
    | Select(v: Id, now: Time, ids: seq<Id>)
    | Skip(v: Id, now: Time)
    | Begin(v: Id)
    | Read(v: Id)
    | Drop(v: Id, now: Time)
    | Claim(v: Id, now: Time)
    | Dispatch(v: Id)
    | Answer(v: Id, reply: Reply)
    | Record(v: Id, now: Time)
    | Finish(v: Id)
    | Crash(v: Id)
    | CrmChange(crm: Crm)
    | Reconfigure(setup: Setup)

  /** Campaigns keep their configuration and no configuration disappears; limits, attempts and
      channels change freely. */
  predicate SetupEvolves(before: Setup, after: Setup) {
    && before.providers.Keys <= after.providers.Keys
    && forall c :: c in before.configOf ==> c in after.configOf && after.configOf[c] == before.configOf[c]
  }

  predicate Busy(w: World, v: Id) {
    var u := WorkerOf(w, v);
    u.Working? && u.todo != [] && u.todo[0].id in w.rows
  }

  function Item(w: World, v: Id): Snapshot
    requires Busy(w, v)
  {
    WorkerOf(w, v).todo[0]
  }

  predicate Capable(w: World, v: Id)
    requires Busy(w, v)
  {
    Item(w, v).channel in WorkerOf(w, v).channels
  }

  ghost predicate Enabled(w: World, s: Step) {
    match s
    case Enqueue(_, campaign, _, _, _) => Configured(w.setup, campaign) && ProviderOf(w.setup, campaign).maxAttempts > 0
    case Sweep(_, _) => true
    case Unregistered(_, _) => true
    case Load(v, campaign) => WorkerOf(w, v).Idle? && Configured(w.setup, campaign)
    case Count(v, _) => WorkerOf(w, v).Loaded? && WorkerOf(w, v).campaign in w.setup.configOf
    case Select(v, now, ids) =>
      && WorkerOf(w, v).Counted?
      && IsSelection(w.rows, WorkerOf(w, v).campaign, now, WorkerOf(w, v).allowance, ids)
    case Skip(v, _) => Busy(w, v) && WorkerOf(w, v).task == NextItem && !Capable(w, v)
    case Begin(v) => Busy(w, v) && WorkerOf(w, v).task == NextItem && Capable(w, v)
    case Read(v) => Busy(w, v) && WorkerOf(w, v).task.Checking?
    case Drop(v, _) => Busy(w, v) && WorkerOf(w, v).task.Ineligible?
    case Claim(v, _) => Busy(w, v) && WorkerOf(w, v).task == Claiming
    case Dispatch(v) => Busy(w, v) && WorkerOf(w, v).task == Ready
    case Answer(v, _) =>
      Busy(w, v) && WorkerOf(w, v).task.Calling? && WorkerOf(w, v).task.call < |CallsOf(w, Item(w, v).id)|
    case Record(v, _) => Busy(w, v) && WorkerOf(w, v).task.Recording?
    case Finish(v) => WorkerOf(w, v).Working? && WorkerOf(w, v).todo == [] && WorkerOf(w, v).task == NextItem
    case Crash(v) => !WorkerOf(w, v).Idle?
    case CrmChange(crm) => Evolves(w.crm, crm)
    case Reconfigure(setup) => SetupEvolves(w.setup, setup)
  }

  function WithTask(w: World, v: Id, task: Task): World
    requires Busy(w, v)
  {
    w.(workers := w.workers[v := WorkerOf(w, v).(task := task)])
  }

  /** The worker writes its row and moves on to the next delivery of its batch. */
  function Advance(w: World, v: Id, row: Delivery): World
    requires Busy(w, v)
  {
    var u := WorkerOf(w, v);
    w.(rows := w.rows[u.todo[0].id := row], workers := w.workers[v := u.(todo := u.todo[1..], task := NextItem)])
  }

  function AfterRead(crm: Crm, item: Snapshot, phase: Phase, stage: nat): Task {
    if !ReadPasses(crm, item.customer, item.channel, stage) then Ineligible(phase)
    else if stage + 1 < READS then Checking(phase, stage + 1)
    else if phase == First then Claiming else Ready
  }

  ghost function Apply(w: World, s: Step): World
    requires Enabled(w, s)
  {
    match s
    case Enqueue(key, campaign, customer, channel, now) =>
      if key in w.rows then w
      else w.(rows := w.rows[key := Delivery(campaign, w.setup.configOf[campaign], customer, channel, Queued, 0,
                                             ProviderOf(w.setup, campaign).maxAttempts, Some(now), now, None, now)])
    case Sweep(campaign, now) => w.(rows := map d | d in w.rows :: SweepRow(w.rows[d], campaign, now))
    case Unregistered(campaign, now) => w.(rows := map d | d in w.rows :: UnregisteredRow(w.rows[d], campaign, now))
    case Load(v, campaign) => w.(workers := w.workers[v := Loaded(campaign, ProviderOf(w.setup, campaign))])
    case Count(v, counted) =>
      var u := WorkerOf(w, v);
      var allowance := Allowance(w.rows, w.setup.configOf[u.campaign], u.provider, counted);
      w.(workers := w.workers[v := Counted(u.campaign, u.provider.channels, allowance)])
    case Select(v, _, ids) =>
      var u := WorkerOf(w, v);
      w.(workers := w.workers[v := Working(u.campaign, u.channels, Snapshots(w.rows, ids), NextItem)])
    case Skip(v, now) =>
      var item := Item(w, v);
      Advance(w, v, FailRow(w.rows[item.id], item.attempts + 1, item.maxAttempts, true, now))
    case Begin(v) => WithTask(w, v, Checking(First, 0))
    case Read(v) =>
      var task := WorkerOf(w, v).task;
      WithTask(w, v, AfterRead(w.crm, Item(w, v), task.phase, task.stage))
    case Drop(v, now) => Advance(w, v, Unsubscribe(w.rows[Item(w, v).id], WorkerOf(w, v).task.phase, now))
    case Claim(v, now) =>
      var row := w.rows[Item(w, v).id];
      if Claimable(row)
      then WithTask(w, v, Checking(Second, 0)).(rows := w.rows[Item(w, v).id := Claimed(row, now)])
      else Advance(w, v, row)
    case Dispatch(v) =>
      var d := Item(w, v).id;
      WithTask(w, v, Calling(|CallsOf(w, d)|)).(calls := w.calls[d := CallsOf(w, d) + [InFlight]])
    case Answer(v, reply) =>
      var d := Item(w, v).id;
      var calls := CallsOf(w, d);
      var call := WorkerOf(w, v).task.call;
      WithTask(w, v, Recording(reply)).(calls := w.calls[d := calls[call := Outcome(reply)]])
    case Record(v, now) =>
      var item := Item(w, v);
      Advance(w, v, RecordRow(w.rows[item.id], WorkerOf(w, v).task.reply, item.attempts, item.maxAttempts, now))
    case Finish(v) => w.(workers := w.workers[v := Idle])
    case Crash(v) => w.(workers := w.workers[v := Idle])
    case CrmChange(crm) => w.(crm := crm)
    case Reconfigure(setup) => w.(setup := setup)
  }

  // --- Runs ---------------------------------------------------------------------------------

  /** `worlds` and `steps` are a run: each step is enabled where it is taken. */
  ghost predicate IsRun(worlds: seq<World>, steps: seq<Step>) {
    && |worlds| == |steps| + 1
    && forall i {:trigger steps[i]} :: 0 <= i < |steps| ==>
         Enabled(worlds[i], steps[i]) && worlds[i + 1] == Apply(worlds[i], steps[i])
  }

  /** Nothing queued yet and nobody at work. */
  predicate Start(w: World) {
    w.rows == map[] && w.calls == map[] && forall v :: v in w.workers ==> w.workers[v].Idle?
  }

  // --- The invariant ------------------------------------------------------------------------

  /** The worker has claimed `d` and not yet recorded what came of it. */
  predicate Holds(u: Worker, d: Id) {
    && u.Working? && u.todo != [] && u.todo[0].id == d
    && (u.task.Ready? || u.task.Calling? || u.task.Recording?
        || (u.task.Checking? && u.task.phase == Second) || (u.task.Ineligible? && u.task.phase == Second))
  }

  predicate AllFailed(calls: seq<Call>) {
    forall i :: 0 <= i < |calls| ==> calls[i] == DefinitelyFailed
  }

  /** Every call except possibly the last definitely failed. */
  predicate FailedButLast(calls: seq<Call>) {
    forall i :: 0 <= i < |calls| - 1 ==> calls[i] == DefinitelyFailed
  }

  predicate RowOk(w: World, d: Id)
    requires d in w.rows
  {
    var r := w.rows[d];
    var calls := CallsOf(w, d);
    && r.campaign in w.setup.configOf && r.config == w.setup.configOf[r.campaign]
    && |calls| <= r.attempts <= r.maxAttempts
    && FailedButLast(calls)
    && (Waiting(r.status) ==> AllFailed(calls))
    && (r.status == Sent <==> r.sentAt.Some?)
    && (r.status == Sent ==> calls != [] && calls[|calls| - 1] == Delivered)
  }

  predicate HeldOk(w: World, u: Worker)
    requires u.Working? && u.todo != [] && u.todo[0].id in w.rows
  {
    var r := w.rows[u.todo[0].id];
    var calls := CallsOf(w, u.todo[0].id);
    Holds(u, u.todo[0].id) ==>
      && (r.status == Sending || r.status == Unconfirmed || r.status == DeadLetter)
      && match u.task
         case Calling(call) => call == |calls| - 1 && calls[call] == InFlight
         case Recording(reply) => calls != [] && calls[|calls| - 1] == Outcome(reply)
         case _ => AllFailed(calls) && |calls| < r.attempts
  }

  predicate Matches(w: World, campaign: Id, item: Snapshot) {
    && item.id in w.rows
    && var r := w.rows[item.id];
       r.campaign == campaign && r.customer == item.customer && r.channel == item.channel
       && r.maxAttempts == item.maxAttempts
  }

  predicate WorkerOk(w: World, u: Worker) {
    && (u.Loaded? ==> Configured(w.setup, u.campaign))
    && (u.Working? ==>
          && (forall i :: 0 <= i < |u.todo| ==> Matches(w, u.campaign, u.todo[i]))
          && (u.task != NextItem ==> u.todo != [])
          && (u.task.Checking? ==> u.task.stage < READS)
          && (u.todo != [] ==> HeldOk(w, u)))
  }

  ghost predicate Exclusive(w: World) {
    forall u, v, d :: u in w.workers && v in w.workers && Holds(w.workers[u], d) && Holds(w.workers[v], d) ==> u == v
  }

  /** The half about rows and their calls. */
  ghost predicate RowsOk(w: World) {
    w.calls.Keys <= w.rows.Keys && forall d :: d in w.rows ==> RowOk(w, d)
  }

  /** The half about workers. */
  ghost predicate WorkersOk(w: World) {
    (forall v :: v in w.workers ==> WorkerOk(w, w.workers[v])) && Exclusive(w)
  }

  ghost predicate Inv(w: World) {
    RowsOk(w) && WorkersOk(w)
  }

  // --- Capability failures --------------------------------------------------------------------

  predicate Held(w: World, d: Id) {
    exists v :: v in w.workers && Holds(w.workers[v], d)
  }

  /** A capability failure lands on a row that is being sent and puts it back to FAILED, although
      some call for it is not known to have failed or its claimer is still at work. */
  predicate Reopens(w: World, s: Step) {
    && s.Skip? && Busy(w, s.v)
    && var item := Item(w, s.v);
       var r := w.rows[item.id];
       && r.status == Sending && item.attempts + 1 < item.maxAttempts
       && (!AllFailed(CallsOf(w, item.id)) || Held(w, item.id))
  }

  /** No capability failure among the first `n` steps reopens a row that is being sent. */
  ghost predicate NeverReopens(worlds: seq<World>, steps: seq<Step>, n: nat)
    requires n <= |steps| < |worlds|
  {
    forall k {:trigger steps[k]} :: 0 <= k < n ==> !Reopens(worlds[k], steps[k])
  }
}
