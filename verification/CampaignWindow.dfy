/**
 The per-minute limit of a provider configuration: no sliding window of 60 seconds ever holds more
 messages than the limit, however calls end, as long as the calls of one configuration stamp in turn.
 */
module CampaignWindow {
  import opened Common
  import opened Consent
  import opened Campaign
  import opened CampaignRuns

  /** No closed 60-second window holds more sent messages of `config` than `limit`. */
  ghost predicate WithinLimit(rows: Rows, config: Id, limit: int) {
    forall lo: Time :: |Window(rows, config, lo)| <= Max(0, limit)
  }

  /** One call's effect on the sent column of a configuration: it stamps at most `allowance` rows and
      leaves every other row's stamp alone. */
  ghost predicate Stamps(before: Rows, after: Rows, config: Id, allowance: nat, stamped: set<Id>) {
    && |stamped| <= allowance
    && (forall d :: d in before ==> d in after && after[d].config == before[d].config)
    && (forall d :: d in after && after[d].config == config && d !in stamped ==>
          if d in before then after[d].sentAt == before[d].sentAt else after[d].sentAt.None?)
  }

  /** None of the stamps is earlier than `start`. */
  ghost predicate NoneBefore(after: Rows, start: Time, stamped: set<Id>) {
    forall d :: d in stamped && d in after && after[d].sentAt.Some? ==> start <= after[d].sentAt.value
  }

  ghost predicate Sends(before: Rows, after: Rows, config: Id, start: Time, allowance: nat, stamped: set<Id>) {
    Stamps(before, after, config, allowance, stamped) && NoneBefore(after, start, stamped)
  }

  lemma SubsetSize(a: set<Id>, b: set<Id>)
    requires a <= b
    ensures |a| <= |b|
  {
    assert b == a + (b - a);
  }

  /** One more call keeps every window within the limit: a window that gained a message began at
      most a minute before the call counted, so its older messages were all counted. */
  lemma CallKeepsLimit(before: Rows, after: Rows, config: Id, p: Provider, start: Time, stamped: set<Id>)
    requires WithinLimit(before, config, p.perMinute)
    requires Sends(before, after, config, start, Allowance(before, config, p, start), stamped)
    ensures WithinLimit(after, config, p.perMinute)
  {
    forall lo: Time ensures |Window(after, config, lo)| <= Max(0, p.perMinute) {
      var now := Window(after, config, lo);
      var earlier := Window(before, config, lo);
      if now <= earlier {
        SubsetSize(now, earlier);
      } else {
        var d :| d in now && d !in earlier;
        assert d in stamped && start <= lo + MINUTE;
        var counted := SentSince(before, config, start - MINUTE);
        forall e | e in now && e !in stamped ensures e in counted {}
        SubsetSize(now, counted + stamped);
        assert |counted + stamped| <= |counted| + |stamped|;
        SubsetSize({d}, stamped);
      }
    }
  }

  /** A call for another configuration stamps none of this one's rows. */
  ghost predicate Elsewhere(before: Rows, after: Rows, config: Id) {
    forall d :: d in after && after[d].config == config && after[d].sentAt.Some? ==>
      d in before && before[d].config == config && before[d].sentAt == after[d].sentAt
  }

  lemma ElsewhereKeepsLimit(before: Rows, after: Rows, config: Id, limit: int)
    requires WithinLimit(before, config, limit) && Elsewhere(before, after, config)
    ensures WithinLimit(after, config, limit)
  {
    forall lo: Time ensures |Window(after, config, lo)| <= Max(0, limit) {
      SubsetSize(Window(after, config, lo), Window(before, config, lo));
    }
  }

  ghost predicate CallOf(before: Rows, after: Rows, config: Id, p: Provider) {
    Elsewhere(before, after, config)
    || exists start, stamped :: Sends(before, after, config, start, Allowance(before, config, p, start), stamped)
  }

  /** Over any history of calls that do not overlap, every 60-second window of every state holds at
      most the configured number of messages. */
  lemma {:induction false} WindowLimit(history: seq<Rows>, config: Id, p: Provider, i: nat)
    requires i < |history|
    requires WithinLimit(history[0], config, p.perMinute)
    requires forall k :: 0 <= k < |history| - 1 ==> CallOf(history[k], history[k + 1], config, p)
    ensures WithinLimit(history[i], config, p.perMinute)
  {
    if i > 0 {
      WindowLimit(history, config, p, i - 1);
      var before, after := history[i - 1], history[i];
      assert CallOf(before, after, config, p);
      if Elsewhere(before, after, config) {
        ElsewhereKeepsLimit(before, after, config, p.perMinute);
      } else {
        var start, stamped :| Sends(before, after, config, start, Allowance(before, config, p, start), stamped);
        CallKeepsLimit(before, after, config, p, start, stamped);
      }
    }
  }

  /** A call may send what the limit leaves of the last minute, at most a batch, and nothing once the limit
      is reached. */
  lemma AllowanceIs(rows: Rows, config: Id, p: Provider, now: Time)
    ensures var recent := |set d | d in rows && rows[d].config == config && rows[d].sentAt.Some?
                                   && now - 60 * 1000 <= rows[d].sentAt.value|;
            var left := p.perMinute - recent;
            Allowance(rows, config, p, now)
            == if left <= 0 || p.batchSize <= 0 then 0 else if left < p.batchSize then left else p.batchSize
  {
    assert (set d | d in rows && rows[d].config == config && rows[d].sentAt.Some?
                    && now - 60 * 1000 <= rows[d].sentAt.value) == SentSince(rows, config, now - MINUTE);
  }

  // --- Calls of the protocol, finished or not -----------------------------------------------------

  /** The step stamps a row of `config`. */
  predicate Lands(w: World, s: Step, config: Id) {
    && s.Record? && Busy(w, s.v) && WorkerOf(w, s.v).task == Recording(Accepted)
    && w.rows[Item(w, s.v).id].status == Sending && w.rows[Item(w, s.v).id].config == config
  }

  lemma ItemStampStays(w: World, s: Step, config: Id)
    requires Enabled(w, s) && !Lands(w, s, config) && (s.Skip? || s.Drop? || s.Claim? || s.Record?)
    ensures Stamps(w.rows, Apply(w, s).rows, config, 0, {})
  {
    var d, after := Item(w, s.v).id, Apply(w, s).rows;
    assert after == w.rows[d := after[d]];
    assert after[d].config == w.rows[d].config;
  }

  lemma TableStampsStay(w: World, s: Step, config: Id)
    requires Enabled(w, s) && (s.Enqueue? || s.Sweep? || s.Unregistered?)
    ensures Stamps(w.rows, Apply(w, s).rows, config, 0, {})
  {
  }

  /** A step that stamps no row of `config` leaves its stamps alone. */
  lemma StampsStay(w: World, s: Step, config: Id)
    requires Enabled(w, s) && !Lands(w, s, config)
    ensures Stamps(w.rows, Apply(w, s).rows, config, 0, {})
  {
    if s.Skip? || s.Drop? || s.Claim? || s.Record? { ItemStampStays(w, s, config); }
    else if s.Enqueue? || s.Sweep? || s.Unregistered? { TableStampsStay(w, s, config); }
    else { assert Apply(w, s).rows == w.rows; }
  }

  /** One that does stamps one. */
  lemma LandingStamps(w: World, s: Step, config: Id)
    requires Enabled(w, s) && Lands(w, s, config)
    ensures var d := Item(w, s.v).id; var after := Apply(w, s).rows;
            after.Keys == w.rows.Keys && after[d].config == w.rows[d].config && after[d].sentAt == Some(s.now)
            && forall e :: e in after && e != d ==> after[e] == w.rows[e]
  {
  }

  /** How many messages a worker may still stamp in its call. */
  function Left(u: Worker): nat {
    match u
    case Counted(_, _, allowance) => allowance
    case Working(_, _, todo, _) => |todo|
    case _ => 0
  }

  /** Until worker `v` begins another call, it alone stamps rows of `config`, no earlier than `start`. */
  predicate WithinCall(w: World, s: Step, config: Id, v: Id, start: Time) {
    && (Lands(w, s, config) ==> s.v == v && start <= s.now)
    && !(s.Load? && s.v == v)
  }

  lemma LeftShrinks(w: World, s: Step, v: Id)
    requires Enabled(w, s) && !(s.Load? && s.v == v) && !WorkerOf(w, v).Loaded?
    ensures var u, u' := WorkerOf(w, v), WorkerOf(Apply(w, s), v);
            !u'.Loaded? && Left(u') <= Left(u) && (s.Record? && s.v == v ==> Left(u') == Left(u) - 1)
  {
  }

  /** One more step of a call. */
  lemma StepSends(before: Rows, w: World, s: Step, config: Id, v: Id, start: Time, allowance: nat, stamped: set<Id>)
    returns (more: set<Id>)
    requires Enabled(w, s) && WithinCall(w, s, config, v, start) && !WorkerOf(w, v).Loaded?
    requires Sends(before, w.rows, config, start, allowance, stamped)
    requires |stamped| + Left(WorkerOf(w, v)) <= allowance
    ensures Sends(before, Apply(w, s).rows, config, start, allowance, more)
    ensures |more| + Left(WorkerOf(Apply(w, s), v)) <= allowance && !WorkerOf(Apply(w, s), v).Loaded?
  {
    LeftShrinks(w, s, v);
    if Lands(w, s, config) {
      LandingStamps(w, s, config);
      more := stamped + {Item(w, s.v).id};
    } else {
      StampsStay(w, s, config);
      more := set d | d in stamped && d in w.rows && w.rows[d].config == config;
      SubsetSize(more, stamped);
    }
  }

  /** From the reading that counted on, and wherever the call has got to or was cut off, it has stamped
      no more than it counted. */
  lemma {:induction false} CallSends(worlds: seq<World>, steps: seq<Step>, a: nat, b: nat, config: Id)
    returns (stamped: set<Id>)
    requires IsRun(worlds, steps) && a < b <= |steps| && steps[a].Count?
    requires forall k :: a < k < b ==> WithinCall(worlds[k], steps[k], config, steps[a].v, steps[a].counted)
    ensures var allowance := WorkerOf(worlds[a + 1], steps[a].v).allowance;
            && Sends(worlds[a].rows, worlds[b].rows, config, steps[a].counted, allowance, stamped)
            && |stamped| + Left(WorkerOf(worlds[b], steps[a].v)) <= allowance
            && !WorkerOf(worlds[b], steps[a].v).Loaded?
  {
    assert worlds[a + 1] == Apply(worlds[a], steps[a]);
    if b == a + 1 {
      stamped := {};
    } else {
      var before := CallSends(worlds, steps, a, b - 1, config);
      stamped := StepSends(worlds[a].rows, worlds[b - 1], steps[b - 1], config, steps[a].v, steps[a].counted,
                           WorkerOf(worlds[a + 1], steps[a].v).allowance, before);
    }
  }

  /** The stamp at `k` belongs to the call that counted at `a` for `config`, under at most `limit`, and
      nobody else has stamped a row of `config` since. */
  ghost predicate InTurn(worlds: seq<World>, steps: seq<Step>, a: nat, k: nat, config: Id, limit: int)
    requires a < k < |steps| < |worlds|
  {
    && steps[a].Count? && Enabled(worlds[a], steps[a])
    && var u := WorkerOf(worlds[a], steps[a].v);
       && worlds[a].setup.configOf[u.campaign] == config && u.provider.perMinute == limit
       && forall m :: a < m <= k ==> WithinCall(worlds[m], steps[m], config, steps[a].v, steps[a].counted)
  }

  /** Calls of one configuration stamp in turn; they may overlap otherwise, and end anywhere. */
  ghost predicate StampInTurn(worlds: seq<World>, steps: seq<Step>, n: nat, config: Id, limit: int)
    requires n <= |steps| < |worlds|
  {
    forall k {:trigger steps[k]} :: 0 <= k < n && Lands(worlds[k], steps[k], config) ==>
      exists a: nat :: a < k && InTurn(worlds, steps, a, k, config, limit)
  }

  /** The limit holds in every state of every run: also in the middle of a call, and after a crash. */
  lemma {:induction false} RunWithinLimit(worlds: seq<World>, steps: seq<Step>, i: nat, config: Id, limit: int)
    requires IsRun(worlds, steps) && Start(worlds[0]) && i <= |steps| && StampInTurn(worlds, steps, i, config, limit)
    ensures WithinLimit(worlds[i].rows, config, limit)
  {
    if i == 0 {
      forall lo: Time ensures Window(worlds[0].rows, config, lo) == {} {}
    } else if Lands(worlds[i - 1], steps[i - 1], config) {
      var a: nat :| a < i - 1 && InTurn(worlds, steps, a, i - 1, config, limit);
      RunWithinLimit(worlds, steps, a, config, limit);
      var stamped := CallSends(worlds, steps, a, i, config);
      assert worlds[a + 1] == Apply(worlds[a], steps[a]);
      CallKeepsLimit(worlds[a].rows, worlds[i].rows, config, WorkerOf(worlds[a], steps[a].v).provider,
                     steps[a].counted, stamped);
    } else {
      RunWithinLimit(worlds, steps, i - 1, config, limit);
      StampsStay(worlds[i - 1], steps[i - 1], config);
      ElsewhereKeepsLimit(worlds[i - 1].rows, worlds[i].rows, config, limit);
    }
  }

  // --- Why the clock must not step back -----------------------------------------------------------

  // A limit of one message a minute, and one worker: a message sent at 35 seconds, then a call that
  // counts at 100 seconds and stamps 35 seconds.

  const ONE_A_MINUTE := Setup(map[0 := 0], map[0 := Provider(1, 1, 1, {Email})])
  const CRM := Crm({0}, [Entry(0, 0, Email, Granted, 0, 0)], {}, {(0, KindFor(Email))})
  const QUEUED := Delivery(0, 0, 0, Email, Queued, 0, 1, Some(0), 0, None, 0)


  lemma QueueAndSend(w: World, d: Id, t: Time, stamp: Time) returns (steps: seq<Step>)
    requires w.setup == ONE_A_MINUTE && w.crm == CRM && d !in w.rows && d !in w.calls && WorkerOf(w, 1).Idle?
    requires t >= 0 && NoneSentSince(w.rows, t) && forall e :: e in w.rows ==> w.rows[e].status == Sent
    ensures LeadsTo(w, steps, DeliveredIn(w.(rows := w.rows[d := QUEUED]), 1, d, stamp))
    ensures AllBy(steps[1..], 1) && steps != [] && steps[0].Enqueue?
  {
    var queue := Enqueue(d, 0, 0, Email, 0);
    var queued := w.(rows := w.rows[d := QUEUED]);
    assert CRM.consents[..0] == [];
    One(w, queue);
    var send := SendOnly(queued, 1, 0, d, t, stamp);
    Chain(w, [queue], queued, send, DeliveredIn(queued, 1, d, stamp));
    steps := [queue] + send;
    assert steps[1..] == send;
  }

  lemma SendTwice() returns (steps: seq<Step>, end: World)
    ensures LeadsTo(World(ONE_A_MINUTE, map[], CRM, map[], map[]), steps, end)
    ensures forall s: Step :: s in steps ==> s.Enqueue? || By(s, 1)
    ensures end.rows == map[0 := SentRow(QUEUED, 35000), 1 := SentRow(QUEUED, 35000)]
  {
    var start := World(ONE_A_MINUTE, map[], CRM, map[], map[]);
    var once := DeliveredIn(start.(rows := start.rows[0 := QUEUED]), 1, 0, 35000);
    end := DeliveredIn(once.(rows := once.rows[1 := QUEUED]), 1, 1, 35000);
    var a := QueueAndSend(start, 0, 35000, 35000);
    var b := QueueAndSend(once, 1, 100000, 35000);
    Chain(start, a, once, b, end);
    steps := a + b;
    assert a == [a[0]] + a[1..] && b == [b[0]] + b[1..];
  }

  /** One worker, whose calls end one after the other, exceeds the limit when its clock falls behind the
      reading that counted. */
  lemma ClockStepBackBreaksLimit()
    ensures exists worlds: seq<World>, steps: seq<Step> :: IsRun(worlds, steps) && Start(worlds[0])
              && (forall s: Step :: s in steps ==> s.Enqueue? || By(s, 1))
              && worlds[0].setup == ONE_A_MINUTE && !WithinLimit(worlds[|steps|].rows, 0, 1)
  {
    var steps, end := SendTwice();
    var worlds := ChainIsRun(World(ONE_A_MINUTE, map[], CRM, map[], map[]), steps, end);
    assert Window(end.rows, 0, 35000) == {0, 1};
    assert |Window(end.rows, 0, 35000)| == 2;
    assert IsRun(worlds, steps);
  }
}
