/**
 What the provider's answers come to in the columns of a row, and which rows are done for good: a
 permanent refusal or the last of the attempts a worker knows of ends in DEAD_LETTER, anything less is
 put off by a delay that doubles from attempt to attempt, and a row without attempts left is never
 claimed or called for again.
 */
module CampaignOutcomes {
  import opened Common
  import opened Consent
  import opened Campaign
  import opened CampaignSafety
  import opened CampaignRuns

  // --- Answers ------------------------------------------------------------------------------------

  /** Half a minute, doubled for every attempt, up to an hour. */
  lemma DelayDoubles(n: nat)
    ensures RetryDelay(0) == 30000
    ensures RetryDelay(n + 1) == if 2 * RetryDelay(n) < 3600000 then 2 * RetryDelay(n) else 3600000
  {
    if n < 7 {
      assert Pow2(n + 1) == 2 * Pow2(n);
      PowersAre();
    } else {
      PowersAre();
    }
  }

  lemma PowersAre()
    ensures Pow2(0) == 1 && Pow2(1) == 2 && Pow2(2) == 4 && Pow2(3) == 8 && Pow2(4) == 16 && Pow2(5) == 32
    ensures Pow2(6) == 64 && Pow2(7) == 128
  {
    assert Pow2(3) == 2 * Pow2(2);
    assert Pow2(6) == 2 * Pow2(5);
  }

  /** The answer to a call allows another attempt. */
  predicate Retries(reply: Reply, item: Snapshot) {
    reply.Refused? && reply.retryable && item.attempts + 1 < item.maxAttempts
  }

  /** What recording an answer makes of a row that is being sent, column by column. */
  lemma AnswerDecides(w: World, s: Step)
    requires s.Record? && Enabled(w, s) && w.rows[Item(w, s.v).id].status == Sending
    ensures var item := Item(w, s.v); var reply := WorkerOf(w, s.v).task.reply;
            var r := w.rows[item.id]; var r' := Apply(w, s).rows[item.id];
            && r' == r.(status := r'.status, nextAttempt := r'.nextAttempt, sentAt := r'.sentAt, updatedAt := s.now)
            && (r'.status == Sent <==> reply == Accepted)
            && (r'.status == Unconfirmed <==> reply == Unclear || reply == Threw)
            && (r'.status == Failed <==> Retries(reply, item))
            && (r'.status == DeadLetter <==> reply.Refused? && !Retries(reply, item))
            && r'.sentAt == (if reply == Accepted then Some(s.now) else r.sentAt)
            && r'.nextAttempt
                 == (if Retries(reply, item) then Some(s.now + RetryDelay(item.attempts + 1)) else None)
  {
  }

  /** A row that was put off is not due before its delay is over. */
  lemma PutOffIsNotDue(w: World, s: Step, campaign: Id, t: Time)
    requires s.Record? && Enabled(w, s) && w.rows[Item(w, s.v).id].status == Sending
    requires var item := Item(w, s.v);
             Retries(WorkerOf(w, s.v).task.reply, item) && t < s.now + RetryDelay(item.attempts + 1)
    ensures !Due(Apply(w, s).rows[Item(w, s.v).id], campaign, t)
  {
    AnswerDecides(w, s);
  }

  // --- The other statements ----------------------------------------------------------------------

  /** Queueing adds a fresh row under a new key: QUEUED at once, no attempt taken, with the attempts that its
      campaign's configuration allows now. A known key changes nothing. */
  lemma EnqueueDecides(w: World, key: Id, campaign: Id, customer: Id, ch: Channel, now: Time)
    requires Enabled(w, Enqueue(key, campaign, customer, ch, now))
    ensures var after := Apply(w, Enqueue(key, campaign, customer, ch, now)); var config := w.setup.configOf[campaign];
            if key in w.rows then after == w
            else after.rows == w.rows[key := after.rows[key]]
                 && var r := after.rows[key];
                    && r.campaign == campaign && r.config == config && r.customer == customer && r.channel == ch
                    && r.status == Queued && r.attempts == 0 && r.maxAttempts == w.setup.providers[config].maxAttempts
                    && r.nextAttempt == Some(now) && r.queuedAt == now && r.updatedAt == now && r.sentAt == None
  {
  }

  /** What the selection returns: waiting rows of the campaign with an attempt left whose time has come, each
      once, in the order they were queued, up to the limit; and it leaves out only younger ones. */
  lemma SelectionIs(rows: Rows, campaign: Id, now: Time, limit: nat, ids: seq<Id>, i: nat, j: nat, d: Id)
    requires IsSelection(rows, campaign, now, limit, ids)
    ensures |ids| <= limit
    ensures i < |ids| ==>
              && ids[i] in rows
              && var r := rows[ids[i]];
                 && r.campaign == campaign && (r.status == Queued || r.status == Failed) && r.attempts < r.maxAttempts
                 && (r.nextAttempt.Some? ==> r.nextAttempt.value <= now)
    ensures i < j < |ids| ==> ids[i] != ids[j] && rows[ids[i]].queuedAt <= rows[ids[j]].queuedAt
    ensures d in rows && d !in ids && rows[d].campaign == campaign
            && (rows[d].status == Queued || rows[d].status == Failed) && rows[d].attempts < rows[d].maxAttempts
            && (rows[d].nextAttempt.Some? ==> rows[d].nextAttempt.value <= now)
            ==> |ids| == limit && (i < |ids| ==> rows[ids[i]].queuedAt <= rows[d].queuedAt)
  {
  }

  /** A worker's batch copies the selected rows in their order. */
  lemma SelectDecides(w: World, v: Id, now: Time, ids: seq<Id>, i: nat)
    requires Enabled(w, Select(v, now, ids)) && i < |ids|
    ensures var todo := Apply(w, Select(v, now, ids)).workers[v].todo; var r := w.rows[ids[i]];
            && |todo| == |ids| && todo[i].id == ids[i] && todo[i].customer == r.customer && todo[i].channel == r.channel
            && todo[i].attempts == r.attempts && todo[i].maxAttempts == r.maxAttempts
  {
  }

  /** The history of calls: a call is added when it is made, and becomes what its answer says of it. */
  lemma CallsAre(w: World, s: Step)
    requires Enabled(w, s) && (s.Dispatch? || s.Answer?)
    ensures var d := Item(w, s.v).id; var before, after := CallsOf(w, d), CallsOf(Apply(w, s), d);
            if s.Dispatch? then after == before + [InFlight]
            else var k := WorkerOf(w, s.v).task.call;
                 && |after| == |before| && (forall i :: 0 <= i < |before| && i != k ==> after[i] == before[i])
                 && (after[k] == Delivered <==> s.reply == Accepted)
                 && (after[k] == DefinitelyFailed <==> s.reply.Refused?)
                 && (after[k] == Doubtful <==> s.reply == Unclear || s.reply == Threw)
  {
  }

  /** A capability failure on a waiting row costs no attempt; it ends the row only if the next attempt
      would be the last that the worker knows of. */
  lemma CapabilityFailureDecides(w: World, s: Step)
    requires s.Skip? && Enabled(w, s) && Waiting(w.rows[Item(w, s.v).id].status)
    ensures var item := Item(w, s.v); var r := w.rows[item.id]; var last := item.attempts + 1 >= item.maxAttempts;
            Apply(w, s).rows[item.id]
            == r.(status := if last then DeadLetter else Failed,
                  nextAttempt := if last then None else Some(s.now + RetryDelay(item.attempts + 1)),
                  updatedAt := s.now)
  {
  }

  /** A claim takes one attempt of a QUEUED or FAILED row that has one left, and nothing else. */
  lemma ClaimDecides(w: World, s: Step)
    requires s.Claim? && Enabled(w, s)
    ensures var d := Item(w, s.v).id; var r := w.rows[d]; var u := Apply(w, s).workers[s.v];
            if (r.status == Queued || r.status == Failed) && r.attempts < r.maxAttempts
            then Apply(w, s).rows[d] == r.(status := Sending, attempts := r.attempts + 1, updatedAt := s.now)
                 && u.todo == w.workers[s.v].todo && u.task == Checking(Second, 0)
            else Apply(w, s).rows[d] == r && u.todo == w.workers[s.v].todo[1..] && u.task == NextItem
  {
  }

  /** A failed check before the claim gives up a waiting row, one after it a row that is being sent. */
  lemma DropDecides(w: World, s: Step)
    requires s.Drop? && Enabled(w, s)
    ensures var d := Item(w, s.v).id; var r := w.rows[d]; var first := WorkerOf(w, s.v).task.phase == First;
            Apply(w, s).rows[d]
            == if (first && (r.status == Queued || r.status == Failed)) || (!first && r.status == Sending)
               then r.(status := Unsubscribed, updatedAt := s.now) else r
  {
  }

  /** The sweep gives up exactly the campaign's rows that have been SENDING for more than ten minutes. */
  lemma SweepDecides(w: World, campaign: Id, now: Time, d: Id)
    requires d in w.rows
    ensures var r := w.rows[d];
            Apply(w, Sweep(campaign, now)).rows[d]
            == if r.campaign == campaign && r.status == Sending && now - r.updatedAt > 10 * 60 * 1000
               then r.(status := Unconfirmed, nextAttempt := None, updatedAt := now) else r
  {
  }

  /** Without an adapter exactly the campaign's waiting rows are put off, by five minutes. */
  lemma PauseDecides(w: World, campaign: Id, now: Time, d: Id)
    requires d in w.rows
    ensures var r := w.rows[d];
            Apply(w, Unregistered(campaign, now)).rows[d]
            == if r.campaign == campaign && (r.status == Queued || r.status == Failed)
               then r.(status := Failed, nextAttempt := Some(now + 5 * 60 * 1000), updatedAt := now) else r
  {
  }

  // --- Rows that are done -------------------------------------------------------------------------

  /** The worker that records is the only one past its claim of the row, and leaves it. */
  lemma RecorderLeaves(w: World, s: Step)
    requires Inv(w) && s.Record? && Enabled(w, s)
    ensures !Held(Apply(w, s), Item(w, s.v).id)
    ensures CallsOf(Apply(w, s), Item(w, s.v).id) == CallsOf(w, Item(w, s.v).id)
  {
    RecordFacts(w, s);
    BusyFacts(w, s.v);
  }

  /** A permanent refusal, or a refusal of the last attempt its worker knows of, ends in DEAD_LETTER with
      no next attempt, in every later state of every run; nobody claims or calls for the row again. */
  lemma PermanentRefusalEnds(worlds: seq<World>, steps: seq<Step>, i: nat, j: nat)
    requires IsRun(worlds, steps) && Start(worlds[0]) && i < j <= |steps| && NeverReopens(worlds, steps, i)
    requires steps[i].Record? && worlds[i].rows[Item(worlds[i], steps[i].v).id].status == Sending
    requires var reply := WorkerOf(worlds[i], steps[i].v).task.reply; var item := Item(worlds[i], steps[i].v);
             reply.Refused? && (!reply.retryable || item.attempts + 1 >= item.maxAttempts)
    ensures var d := Item(worlds[i], steps[i].v).id;
            && d in worlds[j].rows && worlds[j].rows[d].status == DeadLetter && worlds[j].rows[d].nextAttempt == None
            && worlds[j].rows[d].attempts == worlds[i].rows[d].attempts
            && CallsOf(worlds[j], d) == CallsOf(worlds[i], d)
  {
    assert Inv(worlds[0]);
    RunKeepsInv(worlds, steps, i);
    assert worlds[i + 1] == Apply(worlds[i], steps[i]);
    AnswerDecides(worlds[i], steps[i]);
    RecorderLeaves(worlds[i], steps[i]);
    TerminalIsForever(worlds, steps, i + 1, j, Item(worlds[i], steps[i].v).id);
  }

  /** No attempts are left, and nobody is past a claim. */
  predicate Spent(w: World, d: Id) {
    d in w.rows && w.rows[d].attempts >= w.rows[d].maxAttempts && !Held(w, d)
  }

  lemma SpentStays(w: World, s: Step, d: Id)
    requires Enabled(w, s) && Spent(w, d)
    ensures Spent(Apply(w, s), d) && CallsOf(Apply(w, s), d) == CallsOf(w, d)
    ensures Apply(w, s).rows[d].attempts == w.rows[d].attempts
  {
    forall o | o in Apply(w, s).workers ensures !Holds(Apply(w, s).workers[o], d) {
      if o in w.workers { assert !Holds(w.workers[o], d); }
    }
    if s.Dispatch? || s.Answer? { assert !Holds(w.workers[s.v], d); }
  }

  /** Whatever its status, such a row is never claimed and never called for again, in any run. */
  lemma {:induction false} SpentIsForever(worlds: seq<World>, steps: seq<Step>, i: nat, j: nat, d: Id)
    requires IsRun(worlds, steps) && i <= j <= |steps| && Spent(worlds[i], d)
    ensures Spent(worlds[j], d) && worlds[j].rows[d].attempts == worlds[i].rows[d].attempts
    ensures CallsOf(worlds[j], d) == CallsOf(worlds[i], d)
  {
    if i < j {
      SpentIsForever(worlds, steps, i, j - 1, d);
      SpentStays(worlds[j - 1], steps[j - 1], d);
    }
  }

  // --- A last attempt that is not the last its worker knows of --------------------------------------

  // The attempts of a worker's snapshot may be behind the row's: two workers select the row, both call in
  // turn, both are refused, and the second refusal, at the limit of two attempts, leaves it FAILED.

  const TWO_ATTEMPTS := Setup(map[0 := 0], map[0 := Provider(10, 10, 2, {Email})])
  const CUSTOMERS := Crm({0}, [Entry(0, 0, Email, Granted, 0, 0)], {}, {(0, KindFor(Email))})
  const FRESH := Delivery(0, 0, 0, Email, Queued, 0, 2, Some(0), 0, None, 0)
  const BOTH: Worker := Working(0, {Email}, [SnapshotOf(0, FRESH)], NextItem)

  /** Worker `v` has the row in its batch as it was at first. */
  predicate AboutToTry(w: World, v: Id) {
    && w.setup == TWO_ATTEMPTS && w.crm == CUSTOMERS && w.rows.Keys == {0} && WorkerOf(w, v) == BOTH
    && Claimable(w.rows[0]) && w.rows[0].sentAt.None?
  }

  lemma CallAndRefuse(w: World, v: Id) returns (steps: seq<Step>, end: World)
    requires AboutToTry(w, v)
    ensures LeadsTo(w, steps, end) && end.setup == w.setup && end.crm == w.crm && end.rows.Keys == {0}
    ensures end.workers == w.workers[v := Idle]
    ensures end.rows[0] == w.rows[0].(status := Failed, attempts := w.rows[0].attempts + 1,
                                      nextAttempt := Some(RetryDelay(1)), updatedAt := 0)
  {
    assert CUSTOMERS.consents[..0] == [];
    var called := Called(w, v, 0);
    var call := Attempt(w, v, 0);
    var conclude;
    conclude, end := Conclude(called, v, Refused(true), 0);
    Chain(w, call, called, conclude, end);
    steps := call + conclude;
    assert called.workers[v := Idle] == w.workers[v := Idle];
  }

  lemma BothTake() returns (steps: seq<Step>, end: World)
    ensures LeadsTo(World(TWO_ATTEMPTS, map[], CUSTOMERS, map[], map[]), steps, end)
    ensures end == World(TWO_ATTEMPTS, map[0 := FRESH], CUSTOMERS, map[1 := BOTH, 2 := BOTH], map[])
  {
    var start := World(TWO_ATTEMPTS, map[], CUSTOMERS, map[], map[]);
    var queue := Enqueue(0, 0, 0, Email, 0);
    var queued := start.(rows := map[0 := FRESH]);
    One(start, queue);
    var a := TakeOnly(queued, 1, 0, 0, 0);
    var taken := Took(queued, 1, 0, 0);
    var b := TakeOnly(taken, 2, 0, 0, 0);
    end := Took(taken, 2, 0, 0);
    Chain(start, [queue], queued, a, taken);
    Chain(start, [queue] + a, taken, b, end);
    steps := [queue] + a + b;
  }

  /** A row all of whose attempts were refused may stay FAILED, never to be tried again. */
  lemma SpentRowMayStayFailed()
    ensures exists worlds: seq<World>, steps: seq<Step> :: IsRun(worlds, steps) && Start(worlds[0])
              && Spent(worlds[|steps|], 0) && worlds[|steps|].rows[0].status == Failed
  {
    var a, both := BothTake();
    var b, once := CallAndRefuse(both, 1);
    var c, end := CallAndRefuse(once, 2);
    var start := World(TWO_ATTEMPTS, map[], CUSTOMERS, map[], map[]);
    Chain(start, a, both, b, once);
    Chain(start, a + b, once, c, end);
    var worlds := ChainIsRun(start, a + b + c, end);
    assert IsRun(worlds, a + b + c);
  }
}
