/** What the campaign delivery protocol keeps, over every interleaving of its workers. */
module CampaignSafety {
  import opened Common
  import opened Consent
  import opened Campaign

  // --- Steps that leave the rows alone ------------------------------------------------------------

  lemma RowsKept(w: World, w': World)
    requires RowsOk(w) && w'.rows == w.rows && w'.calls == w.calls && SetupEvolves(w.setup, w'.setup)
    ensures RowsOk(w')
  {
    forall d | d in w'.rows ensures RowOk(w', d) { assert RowOk(w, d) && CallsOf(w', d) == CallsOf(w, d); }
  }

  /** Which rows and calls a worker's correctness depends on. */
  lemma SameWorker(w: World, w': World, u: Worker)
    requires WorkerOk(w, u) && w'.calls == w.calls && SetupEvolves(w.setup, w'.setup)
    requires forall d :: d in w.rows ==> d in w'.rows && w'.rows[d] == w.rows[d]
    ensures WorkerOk(w', u)
  {
    if u.Working? && u.todo != [] { assert CallsOf(w', u.todo[0].id) == CallsOf(w, u.todo[0].id); }
  }

  lemma WorkersKept(w: World, w': World)
    requires WorkersOk(w) && w'.workers == w.workers && w'.calls == w.calls && SetupEvolves(w.setup, w'.setup)
    requires forall d :: d in w.rows ==> d in w'.rows && w'.rows[d] == w.rows[d]
    ensures WorkersOk(w')
  {
    forall v | v in w'.workers ensures WorkerOk(w', w'.workers[v]) { SameWorker(w, w', w.workers[v]); }
  }

  /** A worker that holds nothing afterwards changes only itself. */
  lemma WorkerReplaced(w: World, w': World, v: Id, u: Worker)
    requires WorkersOk(w) && w' == w.(workers := w.workers[v := u]) && WorkerOk(w', u)
    requires forall d :: !Holds(u, d)
    ensures WorkersOk(w')
  {
    forall o | o in w'.workers ensures WorkerOk(w', w'.workers[o]) {
      if o != v { SameWorker(w, w', w.workers[o]); }
    }
  }

  lemma QuietStepKeepsInv(w: World, s: Step)
    requires Inv(w) && (s.Finish? || s.Crash? || s.CrmChange? || s.Reconfigure?) && Enabled(w, s)
    ensures Inv(Apply(w, s))
  {
    RowsKept(w, Apply(w, s));
    if s.Finish? || s.Crash? { WorkerReplaced(w, Apply(w, s), s.v, Idle); } else { WorkersKept(w, Apply(w, s)); }
  }

  lemma SelectKeepsInv(w: World, s: Step)
    requires Inv(w) && (s.Load? || s.Count? || s.Select?) && Enabled(w, s)
    ensures Inv(Apply(w, s))
  {
    RowsKept(w, Apply(w, s));
    WorkerReplaced(w, Apply(w, s), s.v, Apply(w, s).workers[s.v]);
  }

  lemma EnqueueKeepsInv(w: World, s: Step)
    requires Inv(w) && s.Enqueue? && Enabled(w, s)
    ensures Inv(Apply(w, s))
  {
    var w' := Apply(w, s);
    forall d | d in w'.rows ensures RowOk(w', d) {
      if d in w.rows { assert RowOk(w, d); }
      assert CallsOf(w', d) == CallsOf(w, d);
    }
    WorkersKept(w, w');
  }

  // --- Statements over a whole column -------------------------------------------------------------

  predicate SameIdentity(a: Delivery, b: Delivery) {
    a.campaign == b.campaign && a.config == b.config && a.customer == b.customer && a.channel == b.channel
    && a.maxAttempts == b.maxAttempts
  }

  /** The row is left, parked, or given up as unconfirmed. */
  predicate Parked(a: Delivery, b: Delivery) {
    || b == a
    || (SameIdentity(a, b) && b.attempts == a.attempts && b.sentAt == a.sentAt
        && (if a.status == Sending then b.status == Unconfirmed else Waiting(a.status) && b.status == Failed))
  }

  ghost predicate ParksRows(w: World, w': World) {
    && w'.setup == w.setup && w'.workers == w.workers && w'.calls == w.calls && w'.rows.Keys == w.rows.Keys
    && forall d :: d in w.rows ==> Parked(w.rows[d], w'.rows[d])
  }

  lemma TableKeepsRows(w: World, w': World)
    requires RowsOk(w) && ParksRows(w, w')
    ensures RowsOk(w')
  {
    forall d | d in w'.rows ensures RowOk(w', d) { assert RowOk(w, d) && CallsOf(w', d) == CallsOf(w, d); }
  }

  lemma TableKeepsWorkers(w: World, w': World)
    requires WorkersOk(w) && ParksRows(w, w')
    ensures WorkersOk(w')
  {
    forall v | v in w'.workers ensures WorkerOk(w', w'.workers[v]) {
      var u := w.workers[v];
      assert WorkerOk(w, u);
      if u.Working? && u.todo != [] {
        assert CallsOf(w', u.todo[0].id) == CallsOf(w, u.todo[0].id);
        assert Parked(w.rows[u.todo[0].id], w'.rows[u.todo[0].id]);
      }
    }
  }

  lemma TableStepKeepsInv(w: World, s: Step)
    requires Inv(w) && (s.Sweep? || s.Unregistered?) && Enabled(w, s)
    ensures Inv(Apply(w, s))
  {
    TableKeepsRows(w, Apply(w, s));
    TableKeepsWorkers(w, Apply(w, s));
  }

  // --- Steps of one worker at its item ------------------------------------------------------------

  /** Worker `v` becomes `u`, its row `d` becomes `r`, and only the calls of `d` change. */
  ghost predicate ItemStep(w: World, w': World, v: Id, d: Id, r: Delivery, u: Worker) {
    && v in w.workers && d in w.rows && SameIdentity(w.rows[d], r)
    && w'.setup == w.setup && w'.rows == w.rows[d := r] && w'.workers == w.workers[v := u]
    && w'.calls.Keys <= w.rows.Keys
    && forall x :: x != d ==> CallsOf(w', x) == CallsOf(w, x)
  }

  lemma ItemStepKeepsRows(w: World, w': World, v: Id, d: Id, r: Delivery, u: Worker)
    requires RowsOk(w) && ItemStep(w, w', v, d, r, u) && RowOk(w', d)
    ensures RowsOk(w')
  {
    forall x | x in w'.rows ensures RowOk(w', x) {
      if x != d { assert RowOk(w, x) && CallsOf(w', x) == CallsOf(w, x); }
    }
  }

  lemma OtherWorkerStays(w: World, w': World, v: Id, d: Id, r: Delivery, u: Worker, o: Worker)
    requires ItemStep(w, w', v, d, r, u) && WorkerOk(w, o) && (Holds(o, d) ==> HeldOk(w', o))
    ensures WorkerOk(w', o)
  {
    if o.Working? && o.todo != [] && o.todo[0].id != d { assert CallsOf(w', o.todo[0].id) == CallsOf(w, o.todo[0].id); }
  }

  lemma ItemStepKeepsWorkers(w: World, w': World, v: Id, d: Id, r: Delivery, u: Worker)
    requires WorkersOk(w) && ItemStep(w, w', v, d, r, u) && WorkerOk(w', u)
    requires forall o :: o in w.workers && o != v && Holds(w.workers[o], d) ==> HeldOk(w', w.workers[o])
    requires forall x :: Holds(u, x) ==>
               Holds(w.workers[v], x) || forall o :: o in w.workers && o != v ==> !Holds(w.workers[o], x)
    ensures WorkersOk(w')
  {
    forall o | o in w'.workers ensures WorkerOk(w', w'.workers[o]) {
      if o != v { OtherWorkerStays(w, w', v, d, r, u, w.workers[o]); }
    }
  }

  /** What a busy worker of a good state knows of its item. */
  lemma BusyFacts(w: World, v: Id)
    requires Inv(w) && Busy(w, v)
    ensures v in w.workers
    ensures var u := w.workers[v]; var d := u.todo[0].id;
            WorkerOk(w, u) && RowOk(w, d) && Matches(w, u.campaign, u.todo[0]) && HeldOk(w, u)
    ensures forall o :: o in w.workers && o != v && Holds(w.workers[v], Item(w, v).id) ==>
              !Holds(w.workers[o], Item(w, v).id)
  {
    assert WorkerOk(w, w.workers[v]);
    assert RowOk(w, w.workers[v].todo[0].id);
  }

  /** Another worker's claim survives any write that leaves a claimed row out of FAILED. */
  lemma OthersKeepHold(w: World, w': World, v: Id, d: Id, r: Delivery)
    requires WorkersOk(w) && d in w.rows && w'.rows == w.rows[d := r] && CallsOf(w', d) == CallsOf(w, d)
    requires !Waiting(w.rows[d].status) && Held(w, d) ==> r.attempts == w.rows[d].attempts
    requires !Waiting(w.rows[d].status) && Held(w, d)
             ==> r.status == Sending || r.status == Unconfirmed || r.status == DeadLetter
    ensures forall o :: o in w.workers && o != v && Holds(w.workers[o], d) ==> HeldOk(w', w.workers[o])
  {
    forall o | o in w.workers && o != v && Holds(w.workers[o], d) ensures HeldOk(w', w.workers[o]) {
      assert WorkerOk(w, w.workers[o]);
    }
  }

  lemma SkipIsItemStep(w: World, s: Step)
    requires Inv(w) && s.Skip? && Enabled(w, s)
    ensures var item := Item(w, s.v);
            var r := FailRow(w.rows[item.id], item.attempts + 1, item.maxAttempts, true, s.now);
            ItemStep(w, Apply(w, s), s.v, item.id, r, Apply(w, s).workers[s.v])
            && CallsOf(Apply(w, s), item.id) == CallsOf(w, item.id)
  {
    BusyFacts(w, s.v);
  }

  /** A capability failure keeps the invariant exactly if it does not reopen a row that is being sent. */
  lemma SkipKeepsInv(w: World, s: Step)
    requires Inv(w) && s.Skip? && Enabled(w, s)
    ensures Inv(Apply(w, s)) <==> !Reopens(w, s)
  {
    BusyFacts(w, s.v);
    SkipIsItemStep(w, s);
    var w', d := Apply(w, s), Item(w, s.v).id;
    if Reopens(w, s) {
      ReopenedIsBad(w, s);
    } else {
      ItemStepKeepsRows(w, w', s.v, d, w'.rows[d], w'.workers[s.v]);
      OthersKeepHold(w, w', s.v, d, w'.rows[d]);
      ItemStepKeepsWorkers(w, w', s.v, d, w'.rows[d], w'.workers[s.v]);
    }
  }

  lemma ReopenedIsBad(w: World, s: Step)
    requires Inv(w) && s.Skip? && Enabled(w, s) && Reopens(w, s)
    ensures !Inv(Apply(w, s))
  {
    SkipIsItemStep(w, s);
    var w', d := Apply(w, s), Item(w, s.v).id;
    if AllFailed(CallsOf(w, d)) {
      var o :| o in w.workers && Holds(w.workers[o], d);
      assert w'.workers[o] == w.workers[o];
      assert !WorkerOk(w', w'.workers[o]);
    } else {
      assert !RowOk(w', d);
    }
  }

  lemma DropKeepsInv(w: World, s: Step)
    requires Inv(w) && s.Drop? && Enabled(w, s)
    ensures Inv(Apply(w, s))
  {
    BusyFacts(w, s.v);
    var w', u := Apply(w, s), w.workers[s.v];
    var d := u.todo[0].id;
    var r := Unsubscribe(w.rows[d], u.task.phase, s.now);
    ItemStepKeepsRows(w, w', s.v, d, r, w'.workers[s.v]);
    if u.task.phase == First { OthersKeepHold(w, w', s.v, d, r); }
    ItemStepKeepsWorkers(w, w', s.v, d, r, w'.workers[s.v]);
  }

  /** A row that may be claimed is held by nobody. */
  lemma ClaimableIsFree(w: World, d: Id)
    requires WorkersOk(w) && d in w.rows && Claimable(w.rows[d])
    ensures !Held(w, d)
  {
    forall o | o in w.workers ensures !Holds(w.workers[o], d) { assert WorkerOk(w, w.workers[o]); }
  }

  /** What a claim does to the row and its worker. */
  lemma ClaimFacts(w: World, s: Step)
    requires Inv(w) && s.Claim? && Enabled(w, s)
    ensures var w' := Apply(w, s); var d := Item(w, s.v).id; var r := Claimed(w.rows[d], s.now);
            && ItemStep(w, w', s.v, d, r, w'.workers[s.v]) && CallsOf(w', d) == CallsOf(w, d)
            && RowOk(w', d) && WorkerOk(w', w'.workers[s.v])
    ensures forall x :: Holds(Apply(w, s).workers[s.v], x) ==> x == Item(w, s.v).id && Claimable(w.rows[x])
  {
    BusyFacts(w, s.v);
  }

  lemma ClaimKeepsInv(w: World, s: Step)
    requires Inv(w) && s.Claim? && Enabled(w, s)
    ensures Inv(Apply(w, s))
  {
    ClaimFacts(w, s);
    var w', d := Apply(w, s), Item(w, s.v).id;
    var r := Claimed(w.rows[d], s.now);
    if Claimable(w.rows[d]) { ClaimableIsFree(w, d); }
    ItemStepKeepsRows(w, w', s.v, d, r, w'.workers[s.v]);
    OthersKeepHold(w, w', s.v, d, r);
    ItemStepKeepsWorkers(w, w', s.v, d, r, w'.workers[s.v]);
  }

  lemma MoveKeepsInv(w: World, s: Step)
    requires Inv(w) && (s.Begin? || s.Read?) && Enabled(w, s)
    ensures Inv(Apply(w, s))
  {
    BusyFacts(w, s.v);
    var w', d := Apply(w, s), Item(w, s.v).id;
    RowsKept(w, w');
    OthersKeepHold(w, w', s.v, d, w.rows[d]);
    ItemStepKeepsWorkers(w, w', s.v, d, w.rows[d], w'.workers[s.v]);
  }

  /** A step of the worker that holds the row leaves nobody else to account for. */
  lemma HolderKeepsInv(w: World, w': World, v: Id, d: Id, r: Delivery, u: Worker)
    requires Inv(w) && ItemStep(w, w', v, d, r, u) && RowOk(w', d) && WorkerOk(w', u)
    requires Holds(w.workers[v], d) && forall x :: Holds(u, x) ==> x == d
    ensures Inv(w')
  {
    forall o | o in w.workers && o != v ensures !Holds(w.workers[o], d) {}
    ItemStepKeepsRows(w, w', v, d, r, u);
    ItemStepKeepsWorkers(w, w', v, d, r, u);
  }

  lemma CallFacts(w: World, s: Step)
    requires Inv(w) && (s.Dispatch? || s.Answer?) && Enabled(w, s)
    ensures var w' := Apply(w, s); var d := Item(w, s.v).id;
            && ItemStep(w, w', s.v, d, w.rows[d], w'.workers[s.v]) && RowOk(w', d) && WorkerOk(w', w'.workers[s.v])
            && Holds(w.workers[s.v], d) && forall x :: Holds(w'.workers[s.v], x) ==> x == d
  {
    BusyFacts(w, s.v);
  }

  lemma CallKeepsInv(w: World, s: Step)
    requires Inv(w) && (s.Dispatch? || s.Answer?) && Enabled(w, s)
    ensures Inv(Apply(w, s))
  {
    CallFacts(w, s);
    var w', d := Apply(w, s), Item(w, s.v).id;
    HolderKeepsInv(w, w', s.v, d, w.rows[d], w'.workers[s.v]);
  }

  /** A recorded answer fits the row: a refusal follows refusals, an acceptance ends it. */
  lemma RecordFits(w: World, d: Id, u: Worker, now: Time)
    requires d in w.rows && RowOk(w, d) && u.Working? && u.todo != [] && u.todo[0].id == d && HeldOk(w, u)
    requires u.task.Recording?
    ensures var r := RecordRow(w.rows[d], u.task.reply, u.todo[0].attempts, u.todo[0].maxAttempts, now);
            SameIdentity(w.rows[d], r) && RowOk(w.(rows := w.rows[d := r]), d)
  {
    var r := RecordRow(w.rows[d], u.task.reply, u.todo[0].attempts, u.todo[0].maxAttempts, now);
    assert CallsOf(w.(rows := w.rows[d := r]), d) == CallsOf(w, d);
  }

  lemma RecordFacts(w: World, s: Step)
    requires Inv(w) && s.Record? && Enabled(w, s)
    ensures var w' := Apply(w, s); var d := Item(w, s.v).id;
            && ItemStep(w, w', s.v, d, w'.rows[d], w'.workers[s.v]) && WorkerOk(w', w'.workers[s.v])
            && Holds(w.workers[s.v], d) && forall x :: !Holds(w'.workers[s.v], x)
    ensures RowOk(Apply(w, s), Item(w, s.v).id)
  {
    BusyFacts(w, s.v);
    var w', u := Apply(w, s), w.workers[s.v];
    var d := u.todo[0].id;
    RecordFits(w, d, u, s.now);
    assert RowOk(w.(rows := w.rows[d := w'.rows[d]]), d);
    assert CallsOf(w', d) == CallsOf(w, d);
  }

  lemma RecordKeepsInv(w: World, s: Step)
    requires Inv(w) && s.Record? && Enabled(w, s)
    ensures Inv(Apply(w, s))
  {
    RecordFacts(w, s);
    var w', d := Apply(w, s), Item(w, s.v).id;
    HolderKeepsInv(w, w', s.v, d, w'.rows[d], w'.workers[s.v]);
  }

  lemma StepKeepsInv(w: World, s: Step)
    requires Inv(w) && Enabled(w, s) && !Reopens(w, s)
    ensures Inv(Apply(w, s))
  {
    if s.Enqueue? { EnqueueKeepsInv(w, s); }
    else if s.Sweep? || s.Unregistered? { TableStepKeepsInv(w, s); }
    else if s.Load? || s.Count? || s.Select? { SelectKeepsInv(w, s); }
    else if s.Finish? || s.Crash? || s.CrmChange? || s.Reconfigure? { QuietStepKeepsInv(w, s); }
    else if s.Skip? { SkipKeepsInv(w, s); }
    else if s.Begin? || s.Read? { MoveKeepsInv(w, s); }
    else if s.Drop? { DropKeepsInv(w, s); }
    else if s.Claim? { ClaimKeepsInv(w, s); }
    else if s.Dispatch? || s.Answer? { CallKeepsInv(w, s); }
    else { RecordKeepsInv(w, s); }
  }

  lemma {:induction false} RunKeepsInv(worlds: seq<World>, steps: seq<Step>, i: nat)
    requires IsRun(worlds, steps) && Inv(worlds[0]) && i <= |steps| && NeverReopens(worlds, steps, i)
    ensures Inv(worlds[i])
  {
    if i > 0 {
      RunKeepsInv(worlds, steps, i - 1);
      StepKeepsInv(worlds[i - 1], steps[i - 1]);
    }
  }

  // --- At most one accepted call ------------------------------------------------------------------

  /** Every call made for a delivery except possibly the last was definitely refused; there are never
      more calls than claims nor more claims than the limit; a delivery still waiting had all its calls
      refused, and a SENT one was accepted last. */
  predicate OnceAtMost(w: World, d: Id)
    requires d in w.rows
  {
    var calls := CallsOf(w, d);
    var r := w.rows[d];
    && (forall k :: 0 <= k < |calls| - 1 ==> calls[k] == DefinitelyFailed)
    && |calls| <= r.attempts <= r.maxAttempts
    && (Waiting(r.status) ==> forall k :: 0 <= k < |calls| ==> calls[k] == DefinitelyFailed)
    && (r.status == Sent ==> calls != [] && calls[|calls| - 1] == Delivered)
  }

  /** In every run, with the configuration changing under it in any way, in which no capability
      failure reopens a row that is being sent. */
  lemma AtMostOnce(worlds: seq<World>, steps: seq<Step>, i: nat, d: Id)
    requires IsRun(worlds, steps) && Start(worlds[0]) && i <= |steps| && d in worlds[i].rows
    requires NeverReopens(worlds, steps, i)
    ensures OnceAtMost(worlds[i], d)
  {
    assert Inv(worlds[0]);
    RunKeepsInv(worlds, steps, i);
    assert RowOk(worlds[i], d);
  }

  // --- Terminal rows ------------------------------------------------------------------------------

  lemma TerminalRowStays(w: World, s: Step, d: Id)
    requires Enabled(w, s) && d in w.rows && Terminal(w.rows[d].status)
    ensures d in Apply(w, s).rows && Apply(w, s).rows[d] == w.rows[d]
  {
  }

  lemma UnheldCallsStay(w: World, s: Step, d: Id)
    requires Enabled(w, s) && d in w.rows && Terminal(w.rows[d].status) && !Held(w, d)
    ensures CallsOf(Apply(w, s), d) == CallsOf(w, d) && !Held(Apply(w, s), d)
  {
    forall o | o in Apply(w, s).workers ensures !Holds(Apply(w, s).workers[o], d) {
      if o in w.workers { assert !Holds(w.workers[o], d); }
    }
    if s.Dispatch? || s.Answer? { assert !Holds(w.workers[s.v], d); }
  }

  /** SENT, UNKNOWN, UNSUBSCRIBED and DEAD_LETTER rows are never written again, so never claimed
      again; and once no worker is still busy with such a row, nothing is ever sent for it either. */
  lemma {:induction false} TerminalIsForever(worlds: seq<World>, steps: seq<Step>, i: nat, j: nat, d: Id)
    requires IsRun(worlds, steps) && i <= j <= |steps|
    requires d in worlds[i].rows && Terminal(worlds[i].rows[d].status)
    ensures d in worlds[j].rows && worlds[j].rows[d] == worlds[i].rows[d]
    ensures !Held(worlds[i], d) ==> CallsOf(worlds[j], d) == CallsOf(worlds[i], d) && !Held(worlds[j], d)
  {
    if i < j {
      TerminalIsForever(worlds, steps, i, j - 1, d);
      TerminalRowStays(worlds[j - 1], steps[j - 1], d);
      if !Held(worlds[i], d) { UnheldCallsStay(worlds[j - 1], steps[j - 1], d); }
    }
  }

  /** No worker is busy with a SENT or UNSUBSCRIBED row. */
  lemma EndedIsNotHeld(worlds: seq<World>, steps: seq<Step>, i: nat, d: Id)
    requires IsRun(worlds, steps) && Start(worlds[0]) && i <= |steps| && d in worlds[i].rows
    requires NeverReopens(worlds, steps, i)
    requires worlds[i].rows[d].status == Sent || worlds[i].rows[d].status == Unsubscribed
    ensures !Held(worlds[i], d)
  {
    assert Inv(worlds[0]);
    RunKeepsInv(worlds, steps, i);
    forall o | o in worlds[i].workers
      ensures !Holds(worlds[i].workers[o], d)
    {
      assert WorkerOk(worlds[i], worlds[i].workers[o]);
    }
  }

  // --- Opt-out --------------------------------------------------------------------------------------

  /** The worker's post-claim check has already read the suppression table for this customer and
      channel, so it may still send. */
  predicate PastSuppressionRead(u: Worker, customer: Id, ch: Channel) {
    && u.Working? && u.todo != [] && u.todo[0].customer == customer && u.todo[0].channel == ch
    && (u.task.Ready? || (u.task.Checking? && u.task.phase == Second && u.task.stage > 2))
  }

  lemma OptOutStep(w: World, s: Step, v: Id, customer: Id, ch: Channel)
    requires Enabled(w, s) && Suppressed(w.crm, customer, ch) && !PastSuppressionRead(WorkerOf(w, v), customer, ch)
    ensures Suppressed(Apply(w, s).crm, customer, ch) && !PastSuppressionRead(WorkerOf(Apply(w, s), v), customer, ch)
    ensures s == Dispatch(v) ==> Item(w, v).customer != customer || Item(w, v).channel != ch
  {
  }

  /** From the moment an opt-out is committed, a worker that has not yet passed the suppression
      read of its post-claim check never calls the provider for that customer and channel. */
  lemma {:induction false} OptOutHolds(worlds: seq<World>, steps: seq<Step>, i: nat, j: nat, v: Id, customer: Id,
                                       ch: Channel)
    requires IsRun(worlds, steps) && i <= j <= |steps|
    requires Suppressed(worlds[i].crm, customer, ch)
    requires !PastSuppressionRead(WorkerOf(worlds[i], v), customer, ch)
    ensures Suppressed(worlds[j].crm, customer, ch)
    ensures !PastSuppressionRead(WorkerOf(worlds[j], v), customer, ch)
    ensures j < |steps| && steps[j] == Dispatch(v) ==>
              Busy(worlds[j], v) && (Item(worlds[j], v).customer != customer || Item(worlds[j], v).channel != ch)
  {
    if i < j {
      OptOutHolds(worlds, steps, i, j - 1, v, customer, ch);
      OptOutStep(worlds[j - 1], steps[j - 1], v, customer, ch);
    }
    if j < |steps| { OptOutStep(worlds[j], steps[j], v, customer, ch); }
  }

  /** The consent service and the campaign workers together: after the step that commits an
      appendConsent of WITHDRAWN or DENIED, no worker that has not passed its suppression read sends. */
  lemma ConsentStopsCampaigns(worlds: seq<World>, steps: seq<Step>, i: nat, j: nat, v: Id, a: Append, effectiveAt: Time,
                              createdAt: Time)
    requires IsRun(worlds, steps) && i < j <= |steps|
    requires OptOut(a.status) && steps[i] == CrmChange(Committed(worlds[i].crm, a, effectiveAt, createdAt))
    requires !PastSuppressionRead(WorkerOf(worlds[i], v), a.customer, a.channel)
    ensures !Eligible(worlds[j].crm, a.customer, a.channel)
    ensures j < |steps| && steps[j] == Dispatch(v) ==>
              Item(worlds[j], v).customer != a.customer || Item(worlds[j], v).channel != a.channel
  {
    assert worlds[i + 1] == Apply(worlds[i], steps[i]);
    OptOutHolds(worlds, steps, i + 1, j, v, a.customer, a.channel);
    assert !ReadPasses(worlds[j].crm, a.customer, a.channel, 2);
  }
}
