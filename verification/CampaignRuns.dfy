/** Runs of the campaign protocol put together from pieces: what one worker can bring about alone. */
module CampaignRuns {
  import opened Common
  import opened Consent
  import opened Campaign

  // --- Chaining steps ---------------------------------------------------------------------------

  /** `steps`, each enabled where it is taken, lead from `w` to `w'`. */
  ghost predicate LeadsTo(w: World, steps: seq<Step>, w': World)
    decreases |steps|
  {
    if steps == [] then w' == w else Enabled(w, steps[0]) && LeadsTo(Apply(w, steps[0]), steps[1..], w')
  }

  lemma {:induction false} Chain(w: World, a: seq<Step>, m: World, b: seq<Step>, w': World)
    requires LeadsTo(w, a, m) && LeadsTo(m, b, w')
    ensures LeadsTo(w, a + b, w')
    decreases |a|
  {
    if a == [] {
      assert a + b == b;
    } else {
      Chain(Apply(w, a[0]), a[1..], m, b, w');
      assert (a + b)[1..] == a[1..] + b;
    }
  }

  lemma One(w: World, s: Step)
    requires Enabled(w, s)
    ensures LeadsTo(w, [s], Apply(w, s))
  {
    assert [s][1..] == [];
  }

  lemma {:induction false} ChainIsRun(w: World, steps: seq<Step>, w': World) returns (worlds: seq<World>)
    requires LeadsTo(w, steps, w')
    ensures IsRun(worlds, steps) && worlds[0] == w && worlds[|steps|] == w'
    decreases |steps|
  {
    if steps == [] {
      worlds := [w];
    } else {
      var rest := ChainIsRun(Apply(w, steps[0]), steps[1..], w');
      worlds := [w] + rest;
      forall i {:trigger steps[i]} | 0 <= i < |steps|
        ensures Enabled(worlds[i], steps[i]) && worlds[i + 1] == Apply(worlds[i], steps[i])
      {
        if i > 0 { assert steps[1..][i - 1] == steps[i]; }
      }
    }
  }

  /** The step is worker `v`'s own. */
  predicate By(s: Step, v: Id) {
    !s.Enqueue? && !s.Sweep? && !s.Unregistered? && !s.CrmChange? && !s.Reconfigure? && s.v == v
  }

  predicate AllBy(steps: seq<Step>, v: Id) {
    forall s :: s in steps ==> By(s, v)
  }

  // --- Pieces of a run ------------------------------------------------------------------------

  function Took(w: World, v: Id, campaign: Id, d: Id): World
    requires d in w.rows && Configured(w.setup, campaign)
  {
    var u := Working(campaign, ProviderOf(w.setup, campaign).channels, [SnapshotOf(d, w.rows[d])], NextItem);
    w.(workers := w.workers[v := u])
  }

  /** Nothing was sent in the minute before `t`. */
  ghost predicate NoneSentSince(rows: Rows, t: Time) {
    forall d :: d in rows && rows[d].sentAt.Some? ==> rows[d].sentAt.value < t - MINUTE
  }

  /** An idle worker loads the configuration and counts; one message at least is allowed. */
  lemma CountNone(w: World, v: Id, campaign: Id, t: Time) returns (counted: World)
    requires NoneSentSince(w.rows, t) && WorkerOf(w, v).Idle? && Configured(w.setup, campaign)
    requires ProviderOf(w.setup, campaign).perMinute > 0 && ProviderOf(w.setup, campaign).batchSize > 0
    ensures LeadsTo(w, [Load(v, campaign), Count(v, t)], counted)
    ensures WorkerOf(counted, v).Counted? && WorkerOf(counted, v).allowance >= 1
    ensures counted == w.(workers := w.workers[v := Counted(campaign, ProviderOf(w.setup, campaign).channels,
                                                            WorkerOf(counted, v).allowance)])
  {
    var loaded := Apply(w, Load(v, campaign));
    counted := Apply(loaded, Count(v, t));
    assert SentSince(w.rows, w.setup.configOf[campaign], t - MINUTE) == {};
    One(w, Load(v, campaign));
    One(loaded, Count(v, t));
    Chain(w, [Load(v, campaign)], loaded, [Count(v, t)], counted);
  }

  /** Then it selects the only row that is due. */
  lemma TakeOnly(w: World, v: Id, campaign: Id, d: Id, t: Time) returns (steps: seq<Step>)
    requires forall e :: e in w.rows ==> (Due(w.rows[e], campaign, t) <==> e == d)
    requires d in w.rows && NoneSentSince(w.rows, t)
    requires WorkerOf(w, v).Idle? && Configured(w.setup, campaign)
    requires ProviderOf(w.setup, campaign).perMinute > 0 && ProviderOf(w.setup, campaign).batchSize > 0
    ensures LeadsTo(w, steps, Took(w, v, campaign, d)) && AllBy(steps, v)
  {
    var counted := CountNone(w, v, campaign, t);
    One(counted, Select(v, t, [d]));
    steps := [Load(v, campaign), Count(v, t)] + [Select(v, t, [d])];
    Chain(w, [Load(v, campaign), Count(v, t)], counted, [Select(v, t, [d])], Apply(counted, Select(v, t, [d])));
    assert Snapshots(w.rows, [d]) == [SnapshotOf(d, w.rows[d])];
    assert Apply(counted, Select(v, t, [d])).workers == Took(w, v, campaign, d).workers;
  }

  /** The reads of an eligibility check that are still to come, and pass. */
  lemma {:induction false} Check(w: World, v: Id, phase: Phase, stage: nat) returns (steps: seq<Step>)
    requires Busy(w, v) && WorkerOf(w, v).task == Checking(phase, stage) && stage < READS
    requires forall k :: stage <= k < READS ==> ReadPasses(w.crm, Item(w, v).customer, Item(w, v).channel, k)
    ensures LeadsTo(w, steps, WithTask(w, v, if phase == First then Claiming else Ready)) && AllBy(steps, v)
    decreases READS - stage
  {
    var next := Apply(w, Read(v));
    assert ReadPasses(w.crm, Item(w, v).customer, Item(w, v).channel, stage);
    One(w, Read(v));
    if stage + 1 < READS {
      var rest := Check(next, v, phase, stage + 1);
      steps := [Read(v)] + rest;
      var end := WithTask(next, v, if phase == First then Claiming else Ready);
      assert end.workers == WithTask(w, v, if phase == First then Claiming else Ready).workers;
      Chain(w, [Read(v)], next, rest, end);
    } else {
      steps := [Read(v)];
    }
  }

  predicate MayTry(w: World, v: Id) {
    && Busy(w, v) && WorkerOf(w, v).task == NextItem && Capable(w, v) && Claimable(w.rows[Item(w, v).id])
    && Eligible(w.crm, Item(w, v).customer, Item(w, v).channel)
  }

  function InClaim(w: World, v: Id, t: Time): World
    requires Busy(w, v)
  {
    var d := Item(w, v).id;
    WithTask(w, v, Checking(Second, 0)).(rows := w.rows[d := Claimed(w.rows[d], t)])
  }

  /** Check and claim. */
  lemma CheckAndClaim(w: World, v: Id, t: Time) returns (steps: seq<Step>)
    requires MayTry(w, v)
    ensures LeadsTo(w, steps, InClaim(w, v, t)) && AllBy(steps, v)
  {
    var w1 := Apply(w, Begin(v));
    var first := Check(w1, v, First, 0);
    var w2 := WithTask(w1, v, Claiming);
    One(w, Begin(v));
    One(w2, Claim(v, t));
    Chain(w, [Begin(v)], w1, first, w2);
    Chain(w, [Begin(v)] + first, w2, [Claim(v, t)], Apply(w2, Claim(v, t)));
    steps := [Begin(v)] + first + [Claim(v, t)];
    assert Apply(w2, Claim(v, t)).workers == InClaim(w, v, t).workers;
  }

  function InCall(w: World, v: Id): World
    requires Busy(w, v)
  {
    var d := Item(w, v).id;
    WithTask(w, v, Calling(|CallsOf(w, d)|)).(calls := w.calls[d := CallsOf(w, d) + [InFlight]])
  }

  /** Check again, from wherever the check stands, and call. */
  lemma ConfirmAndCall(w: World, v: Id, stage: nat) returns (steps: seq<Step>)
    requires Busy(w, v) && WorkerOf(w, v).task == Checking(Second, stage) && stage < READS
    requires forall k :: stage <= k < READS ==> ReadPasses(w.crm, Item(w, v).customer, Item(w, v).channel, k)
    ensures LeadsTo(w, steps, InCall(w, v)) && AllBy(steps, v)
  {
    var second := Check(w, v, Second, stage);
    var w1 := WithTask(w, v, Ready);
    One(w1, Dispatch(v));
    steps := second + [Dispatch(v)];
    Chain(w, second, w1, [Dispatch(v)], Apply(w1, Dispatch(v)));
    assert Apply(w1, Dispatch(v)).workers == InCall(w, v).workers;
  }

  function Called(w: World, v: Id, t: Time): World
    requires Busy(w, v)
  {
    InCall(InClaim(w, v, t), v)
  }

  /** From the top of the loop to the provider. */
  lemma Attempt(w: World, v: Id, t: Time) returns (steps: seq<Step>)
    requires MayTry(w, v)
    ensures LeadsTo(w, steps, Called(w, v, t)) && AllBy(steps, v)
  {
    var first := CheckAndClaim(w, v, t);
    var second := ConfirmAndCall(InClaim(w, v, t), v, 0);
    Chain(w, first, InClaim(w, v, t), second, Called(w, v, t));
    steps := first + second;
  }

  /** The row as it is when the provider has accepted the call, and the worker has recorded it. */
  function SentRow(r: Delivery, stamp: Time): Delivery {
    r.(status := Sent, attempts := r.attempts + 1, nextAttempt := None, sentAt := Some(stamp), updatedAt := stamp)
  }

  function DeliveredIn(w: World, v: Id, d: Id, stamp: Time): World
    requires d in w.rows
  {
    w.(rows := w.rows[d := SentRow(w.rows[d], stamp)], workers := w.workers[v := Idle],
       calls := w.calls[d := CallsOf(w, d) + [Call.Delivered]])
  }

  /** The provider answers, and the worker records that and is done. */
  lemma Conclude(w: World, v: Id, reply: Reply, stamp: Time) returns (steps: seq<Step>, end: World)
    requires Busy(w, v) && |WorkerOf(w, v).todo| == 1
    requires WorkerOf(w, v).task.Calling? && WorkerOf(w, v).task.call == |CallsOf(w, Item(w, v).id)| - 1
    ensures LeadsTo(w, steps, end) && AllBy(steps, v)
    ensures var item := Item(w, v); var made := CallsOf(w, item.id);
            && end.setup == w.setup && end.crm == w.crm && end.workers == w.workers[v := Idle]
            && end.rows
                 == w.rows[item.id := RecordRow(w.rows[item.id], reply, item.attempts, item.maxAttempts, stamp)]
            && end.calls == w.calls[item.id := made[..|made| - 1] + [Outcome(reply)]]
  {
    var made := CallsOf(w, Item(w, v).id);
    var answered := Apply(w, Answer(v, reply));
    One(w, Answer(v, reply));
    var rest;
    rest, end := Leave(answered, v, reply, stamp);
    Chain(w, [Answer(v, reply)], answered, rest, end);
    steps := [Answer(v, reply)] + rest;
    assert made[|made| - 1 := Outcome(reply)] == made[..|made| - 1] + [Outcome(reply)];
  }

  lemma Leave(w: World, v: Id, reply: Reply, stamp: Time) returns (steps: seq<Step>, end: World)
    requires Busy(w, v) && |WorkerOf(w, v).todo| == 1 && WorkerOf(w, v).task == Recording(reply)
    ensures LeadsTo(w, steps, end) && AllBy(steps, v)
    ensures var item := Item(w, v);
            && end.setup == w.setup && end.crm == w.crm && end.workers == w.workers[v := Idle] && end.calls == w.calls
            && end.rows
                 == w.rows[item.id := RecordRow(w.rows[item.id], reply, item.attempts, item.maxAttempts, stamp)]
  {
    var recorded := Apply(w, Record(v, stamp));
    end := Apply(recorded, Finish(v));
    One(w, Record(v, stamp));
    One(recorded, Finish(v));
    Chain(w, [Record(v, stamp)], recorded, [Finish(v)], end);
    steps := [Record(v, stamp)] + [Finish(v)];
  }

  /** The only row that is due may be sent by an idle worker. */
  predicate MaySend(w: World, v: Id, campaign: Id, d: Id, t: Time) {
    && WorkerOf(w, v).Idle? && Configured(w.setup, campaign)
    && ProviderOf(w.setup, campaign).perMinute > 0 && ProviderOf(w.setup, campaign).batchSize > 0
    && d in w.rows && Due(w.rows[d], campaign, t) && w.rows[d].channel in ProviderOf(w.setup, campaign).channels
    && Eligible(w.crm, w.rows[d].customer, w.rows[d].channel)
  }

  lemma InTheCall(w: World, v: Id, campaign: Id, d: Id, t: Time)
    requires MaySend(w, v, campaign, d, t)
    ensures var took := Took(w, v, campaign, d); MayTry(took, v) && Item(took, v).id == d
    ensures var called := Called(Took(w, v, campaign, d), v, t);
            && Busy(called, v) && Item(called, v).id == d && |WorkerOf(called, v).todo| == 1
            && WorkerOf(called, v).task == Calling(|CallsOf(w, d)|)
            && called.setup == w.setup && called.crm == w.crm
            && called.rows == w.rows[d := Claimed(w.rows[d], t)]
            && called.calls == w.calls[d := CallsOf(w, d) + [InFlight]]
    ensures forall o :: o != v ==> WorkerOf(Called(Took(w, v, campaign, d), v, t), o) == WorkerOf(w, o)
    ensures Called(Took(w, v, campaign, d), v, t).workers[v := Idle] == w.workers[v := Idle]
  {
    assert CallsOf(Took(w, v, campaign, d), d) == CallsOf(w, d);
  }

  /** One whole call for the only row that is due, counted at `t` and stamped at `stamp`. */
  lemma SendOnly(w: World, v: Id, campaign: Id, d: Id, t: Time, stamp: Time) returns (steps: seq<Step>)
    requires MaySend(w, v, campaign, d, t) && NoneSentSince(w.rows, t)
    requires forall e :: e in w.rows && Due(w.rows[e], campaign, t) ==> e == d
    ensures LeadsTo(w, steps, DeliveredIn(w, v, d, stamp)) && AllBy(steps, v)
  {
    var took := Took(w, v, campaign, d);
    var called := Called(took, v, t);
    InTheCall(w, v, campaign, d, t);
    var take := TakeOnly(w, v, campaign, d, t);
    var call := Attempt(took, v, t);
    var conclude, end := Conclude(called, v, Accepted, stamp);
    Chain(w, take, took, call, called);
    Chain(w, take + call, called, conclude, end);
    steps := take + call + conclude;
    EndIs(w, v, d, t, stamp, called, end, Item(called, v));
  }

  lemma EndIs(w: World, v: Id, d: Id, t: Time, stamp: Time, called: World, end: World, item: Snapshot)
    requires d in w.rows && Claimable(w.rows[d]) && called.rows == w.rows[d := Claimed(w.rows[d], t)]
    requires called.calls == w.calls[d := CallsOf(w, d) + [InFlight]]
    requires end.setup == w.setup && end.crm == w.crm && end.workers == w.workers[v := Idle]
    requires end.rows == called.rows[d := RecordRow(called.rows[d], Accepted, item.attempts, item.maxAttempts, stamp)]
    requires end.calls == called.calls[d := CallsOf(w, d) + [Call.Delivered]]
    ensures end == DeliveredIn(w, v, d, stamp)
  {
    assert end.rows == DeliveredIn(w, v, d, stamp).rows;
  }
}
