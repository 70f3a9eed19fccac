/**
 Why at-most-once needs its guard: a run in which the provider loses a channel while one worker is
 sending, another worker's capability failure puts the row back to FAILED, a third worker sends it
 again, and the provider accepts both messages.
 */
module CampaignReopening {
  import opened Common
  import opened Consent
  import opened Campaign
  import opened CampaignSafety
  import opened CampaignRuns

  // --- The run ------------------------------------------------------------------------------------

  const PROVIDER := Provider(10, 10, 3, {Email})
  const BEFORE := Setup(map[0 := 0], map[0 := PROVIDER])
  const WITHOUT := Setup(map[0 := 0], map[0 := PROVIDER.(channels := {})])

  /** One customer who may be written to by e-mail. */
  const CRM := Crm({0}, [Entry(0, 0, Email, Granted, 0, 0)], {}, {(0, KindFor(Email))})

  lemma CustomerIsEligible()
    ensures Eligible(CRM, 0, Email)
  {
    assert CRM.consents[..0] == [];
  }

  /** What the worlds of the run have in common. */
  predicate Setting(w: World) {
    && (w.setup == BEFORE || w.setup == WITHOUT) && w.crm == CRM && w.rows.Keys == {0}
    && var r := w.rows[0];
       r.campaign == 0 && r.config == 0 && r.customer == 0 && r.channel == Email && r.maxAttempts == 3 && r.sentAt.None?
  }

  /** A worker takes the row under the full configuration and calls the provider. */
  lemma TakeAndCall(w: World, v: Id, t: Time) returns (steps: seq<Step>)
    requires Setting(w) && w.setup == BEFORE && WorkerOf(w, v).Idle? && Due(w.rows[0], 0, t)
    ensures LeadsTo(w, steps, Called(Took(w, v, 0, 0), v, t))
  {
    CustomerIsEligible();
    var take := TakeOnly(w, v, 0, 0, t);
    var w1 := Took(w, v, 0, 0);
    var call := Attempt(w1, v, t);
    Chain(w, take, w1, call, Called(w1, v, t));
    steps := take + call;
  }

  const QUEUED := Delivery(0, 0, 0, Email, Queued, 0, 3, Some(0), 0, None, 0)
  const BATCH := [SnapshotOf(0, QUEUED)]

  /** The row is queued, a worker takes it, and the provider loses the channel. */
  const STARTED := World(BEFORE, map[], CRM, map[], map[])
  const LOST := World(WITHOUT, map[0 := QUEUED], CRM, map[1 := Working(0, {Email}, BATCH, NextItem)], map[])

  lemma LoseChannel() returns (steps: seq<Step>)
    ensures LeadsTo(STARTED, steps, LOST)
  {
    var queue := Enqueue(0, 0, 0, Email, 0);
    var w1 := Apply(STARTED, queue);
    One(STARTED, queue);
    var take := TakeOnly(w1, 1, 0, 0, 0);
    var w2 := Took(w1, 1, 0, 0);
    One(w2, Reconfigure(WITHOUT));
    Chain(STARTED, [queue], w1, take, w2);
    Chain(STARTED, [queue] + take, w2, [Reconfigure(WITHOUT)], LOST);
    steps := [queue] + take + [Reconfigure(WITHOUT)];
  }

  /** A second worker takes the row without the channel, and the first one calls. */
  const CLAIMED := Claimed(QUEUED, 0)
  const CALLING := World(WITHOUT, map[0 := CLAIMED], CRM,
                         map[1 := Working(0, {Email}, BATCH, Calling(0)), 2 := Working(0, {}, BATCH, NextItem)],
                           map[0 := [InFlight]])

  lemma CallIs()
    ensures var w := Took(LOST, 2, 0, 0); MayTry(w, 1) && Called(w, 1, 0) == CALLING
  {
    CustomerIsEligible();
    var w := Took(LOST, 2, 0, 0);
    assert CallsOf(w, 0) == [] && [] + [InFlight] == [InFlight];
    var end := Called(w, 1, 0);
    assert end.workers == CALLING.workers;
    assert end.rows == CALLING.rows;
    assert end.calls == CALLING.calls;
  }

  lemma CallUnderWay() returns (steps: seq<Step>)
    ensures LeadsTo(LOST, steps, CALLING)
  {
    CallIs();
    var take := TakeOnly(LOST, 2, 0, 0, 0);
    var call := Attempt(Took(LOST, 2, 0, 0), 1, 0);
    Chain(LOST, take, Took(LOST, 2, 0, 0), call, CALLING);
    steps := take + call;
  }

  /** The second worker's capability failure reopens the row, and the channel comes back. */
  const REOPENED := World(BEFORE, map[0 := CLAIMED.(status := Failed, nextAttempt := Some(60000))], CRM,
                          map[1 := Working(0, {Email}, BATCH, Calling(0)), 2 := Working(0, {}, [], NextItem)],
                            map[0 := [InFlight]])

  lemma SkipReopens()
    ensures Enabled(CALLING, Skip(2, 0)) && Reopens(CALLING, Skip(2, 0))
    ensures Apply(CALLING, Skip(2, 0)) == REOPENED.(setup := WITHOUT)
  {
    assert Busy(CALLING, 2) && CallsOf(CALLING, 0)[0] == InFlight;
    assert Pow2(0) == 1 && Pow2(1) == 2 && RetryDelay(1) == 60000;
    assert BATCH[1..] == [];
    assert FailRow(CLAIMED, 1, 3, true, 0) == REOPENED.rows[0];
    var w1 := Apply(CALLING, Skip(2, 0));
    assert w1.rows == REOPENED.rows;
    assert w1.workers == REOPENED.workers;
  }

  lemma Reopening()
    ensures LeadsTo(CALLING, [Skip(2, 0)] + [Reconfigure(BEFORE)], REOPENED)
  {
    SkipReopens();
    var w1 := Apply(CALLING, Skip(2, 0));
    One(CALLING, Skip(2, 0));
    One(w1, Reconfigure(BEFORE));
    Chain(CALLING, [Skip(2, 0)], w1, [Reconfigure(BEFORE)], REOPENED);
  }

  /** A third worker sends the row again. */
  const RESENT := Called(Took(REOPENED, 3, 0, 0), 3, 60000)

  lemma Resend() returns (steps: seq<Step>)
    ensures LeadsTo(REOPENED, steps, RESENT)
  {
    steps := TakeAndCall(REOPENED, 3, 60000);
  }

  /** The provider accepts the first message and the second. */
  lemma BothAccepted() returns (end: World)
    ensures LeadsTo(RESENT, [Answer(1, Accepted)] + [Answer(3, Accepted)], end)
    ensures CallsOf(end, 0) == [Delivered, Delivered]
  {
    assert CallsOf(RESENT, 0) == [InFlight, InFlight];
    var w1 := Apply(RESENT, Answer(1, Accepted));
    end := Apply(w1, Answer(3, Accepted));
    One(RESENT, Answer(1, Accepted));
    One(w1, Answer(3, Accepted));
    Chain(RESENT, [Answer(1, Accepted)], w1, [Answer(3, Accepted)], end);
  }

  lemma SendAgain() returns (steps: seq<Step>, end: World)
    ensures LeadsTo(REOPENED, steps, end) && CallsOf(end, 0) == [Delivered, Delivered]
  {
    var call := Resend();
    end := BothAccepted();
    steps := call + ([Answer(1, Accepted)] + [Answer(3, Accepted)]);
    Chain(REOPENED, call, RESENT, [Answer(1, Accepted)] + [Answer(3, Accepted)], end);
  }

  lemma LeadToReopened() returns (steps: seq<Step>)
    ensures LeadsTo(STARTED, steps, REOPENED)
  {
    var a := LoseChannel();
    var b := CallUnderWay();
    Reopening();
    Chain(STARTED, a, LOST, b, CALLING);
    Chain(STARTED, a + b, CALLING, [Skip(2, 0)] + [Reconfigure(BEFORE)], REOPENED);
    steps := a + b + ([Skip(2, 0)] + [Reconfigure(BEFORE)]);
  }

  /** Without the guard at-most-once fails: a run of the protocol from its start in which one
      capability failure reopens a row, and the provider accepts two messages for it. */
  lemma ReopenedRowIsSentTwice()
    ensures exists worlds, steps :: IsRun(worlds, steps) && Start(worlds[0])
              && CallsOf(worlds[|steps|], 0) == [Delivered, Delivered]
  {
    var a := LeadToReopened();
    var b, end := SendAgain();
    Chain(STARTED, a, REOPENED, b, end);
    var worlds := ChainIsRun(STARTED, a + b, end);
    assert IsRun(worlds, a + b);
  }
  // --- Every reopening ----------------------------------------------------------------------------

  /** A capability failure that reopens a row with a call not known to be refused breaks at-most-once
      there and then. */
  lemma ReopeningBreaks(w: World, s: Step)
    requires Inv(w) && s.Skip? && Enabled(w, s) && Reopens(w, s) && !AllFailed(CallsOf(w, Item(w, s.v).id))
    ensures Item(w, s.v).id in Apply(w, s).rows && !OnceAtMost(Apply(w, s), Item(w, s.v).id)
  {
    SkipIsItemStep(w, s);
  }

  /** The worker holds the row and nothing it has still to read stops it from calling. */
  predicate MayStillSend(w: World, o: Id, d: Id) {
    && Busy(w, o) && Item(w, o).id == d
    && (|| WorkerOf(w, o).task.Ready?
        || (&& WorkerOf(w, o).task.Checking? && WorkerOf(w, o).task.phase == Second
            && WorkerOf(w, o).task.stage < READS
            && forall k :: WorkerOf(w, o).task.stage <= k < READS ==>
                 ReadPasses(w.crm, Item(w, o).customer, Item(w, o).channel, k)))
  }

  /** One that reopens a row whose holder may still send has a continuation that breaks it: the holder
      goes on to call, for a row that waits to be sent. */
  lemma ReopeningLeadsToBreak(w: World, s: Step, o: Id) returns (steps: seq<Step>, end: World)
    requires Inv(w) && s.Skip? && Enabled(w, s) && Reopens(w, s) && MayStillSend(w, o, Item(w, s.v).id)
    ensures LeadsTo(Apply(w, s), steps, end)
    ensures Item(w, s.v).id in end.rows && !OnceAtMost(end, Item(w, s.v).id)
  {
    SkipIsItemStep(w, s);
    var w', d := Apply(w, s), Item(w, s.v).id;
    assert o != s.v && WorkerOf(w', o) == WorkerOf(w, o);
    if WorkerOf(w', o).task.Ready? {
      One(w', Dispatch(o));
      steps, end := [Dispatch(o)], Apply(w', Dispatch(o));
    } else {
      steps := ConfirmAndCall(w', o, WorkerOf(w', o).task.stage);
      end := InCall(w', o);
    }
    var calls := CallsOf(w, d);
    assert CallsOf(end, d) == calls + [InFlight] && CallsOf(end, d)[|calls|] == InFlight;
  }
}
