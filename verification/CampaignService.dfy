/**
 The campaign service as written: one worker's processCampaign, statement by statement, over the
 tables it updates. Every statement it executes is a step of the protocol in module Campaign, so
 what CampaignSafety proves of every interleaving holds of it; and run one call after another it
 keeps each provider's per-minute limit.
 */
module CampaignService {
  import opened Common
  import opened Consent
  import opened Campaign
  import opened CampaignSafety
  import opened CampaignChannels
  import opened CampaignWindow

  /** An eligible campaign_audiences row. */
  datatype Target = Target(key: Id, customer: Id, channel: Channel)

  datatype CampaignStatus = Draft | Scheduled | Activated | Paused | Completed | Cancelled

  /** The columns of a campaign row that decide whether it may be queued. */
  datatype CampaignRow = CampaignRow(status: CampaignStatus, hasProvider: bool, approvalRequired: bool, approved: bool,
                                     scheduleAt: Option<Time>)

  datatype Gate = Open | Later | Over | Barred

  /** The checks at the top of queueCampaign. */
  function GateOf(c: CampaignRow, now: Time): Gate {
    if c.status == Completed then Over
    else if !c.hasProvider || !(c.status == Scheduled || c.status == Activated) || (c.approvalRequired && !c.approved)
    then Barred
    else if c.scheduleAt.Some? && c.scheduleAt.value > now then Later
    else Open
  }

  /** A campaign is queued exactly if it has a provider, is SCHEDULED or ACTIVE, was approved where that is
      required, and its time has come; one that is COMPLETED or whose time has not come is passed over, any
      other is refused. */
  lemma OpensExactlyWhen(c: CampaignRow, now: Time)
    ensures var sendable := c.hasProvider && (c.status == Scheduled || c.status == Activated)
              && (c.approvalRequired ==> c.approved);
            && (GateOf(c, now) == Open <==> sendable && (c.scheduleAt.Some? ==> c.scheduleAt.value <= now))
            && (GateOf(c, now) == Later <==> sendable && c.scheduleAt.Some? && now < c.scheduleAt.value)
            && (GateOf(c, now) == Over <==> c.status == Completed)
            && (GateOf(c, now) == Barred <==> c.status != Completed && !sendable)
  {
  }

  function Keys(audience: seq<Target>): set<Id> {
    if audience == [] then {} else Keys(audience[..|audience| - 1]) + {audience[|audience| - 1].key}
  }

  // --- The service ------------------------------------------------------------------------------

  lemma KeysUpTo(audience: seq<Target>, i: nat)
    requires i < |audience|
    ensures Keys(audience[..i + 1]) == Keys(audience[..i]) + {audience[i].key}
  {
    assert audience[..i + 1][..i] == audience[..i];
  }

  /** Queueing adds the missing keys as fresh rows of the campaign and changes nothing else. */
  ghost predicate QueuedInto(before: Rows, after: Rows, campaign: Id, keys: set<Id>) {
    && after.Keys == before.Keys + keys
    && (forall d :: d in before ==> after[d] == before[d])
    && (forall d :: d in after && d !in before ==>
          after[d].campaign == campaign && after[d].status == Queued && after[d].sentAt.None?)
  }

  lemma QueuedTwice(a: Rows, b: Rows, c: Rows, campaign: Id, keys: set<Id>, key: Id)
    requires QueuedInto(a, b, campaign, keys) && QueuedInto(b, c, campaign, {key})
    ensures QueuedInto(a, c, campaign, keys + {key})
  {
    forall d | d in c && d !in a ensures c[d].campaign == campaign && c[d].status == Queued && c[d].sentAt.None? {
      if d in b { assert c[d] == b[d]; }
    }
  }

  lemma CountQueued(b: set<Id>, c: set<Id>, key: Id)
    requires c == b + {key}
    ensures |c| == |b| + (if key in b then 0 else 1)
  {
    if key in b { assert b + {key} == b; }
  }

  predicate CanSend(setup: Setup, campaign: Id, item: Snapshot)
    requires Configured(setup, campaign)
  {
    item.channel in ProviderOf(setup, campaign).channels
  }

  /** Claim, second check and call of a delivery that passed the first check; `meanwhile` are the
      CRM tables at the second check. */
  predicate Reaches(meanwhile: Crm, row: Delivery, item: Snapshot) {
    Claimable(row) && Eligible(meanwhile, item.customer, item.channel)
  }

  function Attempted(meanwhile: Crm, row: Delivery, item: Snapshot, claimedAt: Time, recordedAt: Time,
                     reply: Reply): Delivery {
    if !Claimable(row) then row
    else if !Eligible(meanwhile, item.customer, item.channel)
    then Unsubscribe(Claimed(row, claimedAt), Second, recordedAt)
    else RecordRow(Claimed(row, claimedAt), reply, item.attempts, item.maxAttempts, recordedAt)
  }

  /** What one turn of the send loop makes of a row. */
  function Processed(setup: Setup, crm: Crm, meanwhile: Crm, row: Delivery, campaign: Id, item: Snapshot,
                     claimedAt: Time, recordedAt: Time, reply: Reply): Delivery
    requires Configured(setup, campaign)
  {
    if !CanSend(setup, campaign, item) then FailRow(row, item.attempts + 1, item.maxAttempts, true, recordedAt)
    else if !Eligible(crm, item.customer, item.channel) then Unsubscribe(row, First, recordedAt)
    else Attempted(meanwhile, row, item, claimedAt, recordedAt, reply)
  }

  predicate Called(setup: Setup, crm: Crm, meanwhile: Crm, row: Delivery, campaign: Id, item: Snapshot)
    requires Configured(setup, campaign)
  {
    CanSend(setup, campaign, item) && Eligible(crm, item.customer, item.channel) && Reaches(meanwhile, row, item)
  }

  /** One turn of the send loop on a waiting row, column by column, from the checks to the answer. */
  lemma TurnIs(setup: Setup, crm: Crm, meanwhile: Crm, row: Delivery, campaign: Id, item: Snapshot,
               claimedAt: Time, recordedAt: Time, reply: Reply)
    requires Configured(setup, campaign) && Waiting(row.status)
    ensures var after := Processed(setup, crm, meanwhile, row, campaign, item, claimedAt, recordedAt, reply);
            var capable := item.channel in setup.providers[setup.configOf[campaign]].channels;
            var willing := Eligible(crm, item.customer, item.channel);
            var last := item.attempts + 1 >= item.maxAttempts;
            var putOff := Some(recordedAt + RetryDelay(item.attempts + 1));
            var taken := row.attempts < row.maxAttempts;
            var sent := capable && willing && taken && Eligible(meanwhile, item.customer, item.channel);
            && after.attempts == row.attempts + (if capable && willing && taken then 1 else 0)
            && (after.status == Sent <==> sent && reply == Accepted)
            && (after.status == Unconfirmed <==> sent && (reply == Unclear || reply == Threw))
            && (after.status == DeadLetter
                <==> (!capable && last) || (sent && reply.Refused? && (!reply.retryable || last)))
            && (after.status == Unsubscribed
                <==> capable && (!willing || (taken && !Eligible(meanwhile, item.customer, item.channel))))
            && ((!capable && !last) || (sent && reply == Refused(true) && !last)
                ==> after.status == Failed && after.nextAttempt == putOff)
            && (capable && willing && !taken ==> after == row)
            && (after.status == Sent ==> after.sentAt == Some(recordedAt))
            && (after.status == Sent || after.status == Unconfirmed || after.status == DeadLetter
                ==> after.nextAttempt == None)
            && (after.status != Sent ==> after.sentAt == row.sentAt)
  {
  }

  /** What the send loop may do to one row: nothing to another campaign's; a row it stamps becomes
      SENT, no earlier than `since` if there is such an instant; any other keeps its stamp. */
  predicate Turned(before: Delivery, after: Delivery, campaign: Id, stamped: bool, since: Option<Time>) {
    && after.campaign == before.campaign && after.config == before.config
    && (before.campaign != campaign ==> after == before && !stamped)
    && (if stamped
        then after.status == Sent && after.sentAt.Some? && NoEarlier(after.sentAt.value, since) && before.status != Sent
        else after.sentAt == before.sentAt)
  }

  predicate NoEarlier(t: Time, since: Option<Time>) {
    since.Some? ==> since.value <= t
  }

  ghost predicate AllTurned(before: Rows, after: Rows, campaign: Id, stamped: set<Id>, since: Option<Time>) {
    && after.Keys == before.Keys && stamped <= after.Keys
    && forall d :: d in before ==> Turned(before[d], after[d], campaign, d in stamped, since)
  }

  ghost predicate Progress(before: Rows, after: Rows, campaign: Id, done: seq<Id>, stamped: set<Id>,
                           since: Option<Time>) {
    && AllTurned(before, after, campaign, stamped, since)
    && (forall d :: d in stamped ==> d in done)
    && (forall d :: d in before && d !in done ==> after[d] == before[d])
  }

  lemma MoreProgress(before: Rows, after: Rows, campaign: Id, ids: seq<Id>, i: nat, stamped: set<Id>,
                     since: Option<Time>, r: Delivery, s: bool)
    requires i < |ids| && ids[i] !in ids[..i] && ids[i] in before
    requires Progress(before, after, campaign, ids[..i], stamped, since)
    requires Turned(before[ids[i]], r, campaign, s, since)
    ensures ids[i] !in stamped
    ensures Progress(before, after[ids[i] := r], campaign, ids[..i + 1],
                     if s then stamped + {ids[i]} else stamped, since)
  {
    assert ids[..i + 1] == ids[..i] + [ids[i]];
  }

  /** One turn of the loop stamps a row exactly when the provider accepted the call. */
  lemma ProcessedTurns(setup: Setup, crm: Crm, meanwhile: Crm, row: Delivery, campaign: Id, item: Snapshot,
                       claimedAt: Time, recordedAt: Time, reply: Reply, since: Option<Time>)
    requires Configured(setup, campaign)
    requires row.campaign == campaign && Waiting(row.status) && row.sentAt.None? && NoEarlier(recordedAt, since)
    ensures Turned(row, Processed(setup, crm, meanwhile, row, campaign, item, claimedAt, recordedAt, reply), campaign,
                   Called(setup, crm, meanwhile, row, campaign, item) && reply == Accepted, since)
  {
  }

  /** What became of the selected rows: those stamped, and those missed for want of a capability or an
      acceptance. */
  datatype Report = Report(ids: seq<Id>, stamped: set<Id>, missed: set<Id>)

  /** Each row gone through ended SENT and counts as sent, ended FAILED, DEAD_LETTER or UNKNOWN and counts as
      failed, or ended UNSUBSCRIBED and counts as neither. */
  ghost predicate Tallied(after: Rows, done: seq<Id>, stamped: set<Id>, missed: set<Id>) {
    && stamped !! missed && (forall d :: d in stamped || d in missed ==> d in done)
    && forall d :: d in done ==>
         d in after && (d in stamped <==> after[d].status == Sent) && (d in missed <==> Missed(after[d].status))
         && (d in stamped || d in missed || after[d].status == Unsubscribed)
  }

  predicate Missed(s: DeliveryStatus) {
    s == Failed || s == DeadLetter || s == Unconfirmed
  }

  lemma TallyOneMore(before: Rows, after: Rows, ids: seq<Id>, i: nat, stamped: set<Id>, missed: set<Id>)
    requires i < |ids| && ids[i] !in ids[..i] && Tallied(before, ids[..i], stamped, missed)
    requires ids[i] in after && after == before[ids[i] := after[ids[i]]]
    requires after[ids[i]].status == Sent || Missed(after[ids[i]].status) || after[ids[i]].status == Unsubscribed
    ensures ids[i] !in stamped && ids[i] !in missed
    ensures Tallied(after, ids[..i + 1], if after[ids[i]].status == Sent then stamped + {ids[i]} else stamped,
                    if Missed(after[ids[i]].status) then missed + {ids[i]} else missed)
  {
    assert ids[..i + 1] == ids[..i] + [ids[i]];
  }

  /** Where a turn leaves a row that could be claimed. */
  lemma TurnEnds(setup: Setup, crm: Crm, meanwhile: Crm, row: Delivery, campaign: Id, item: Snapshot,
                 claimedAt: Time, recordedAt: Time, reply: Reply)
    requires Configured(setup, campaign) && Claimable(row)
    ensures var after := Processed(setup, crm, meanwhile, row, campaign, item, claimedAt, recordedAt, reply);
            var called := Called(setup, crm, meanwhile, row, campaign, item);
            && (after.status == Sent <==> called && reply == Accepted)
            && (Missed(after.status) <==> !CanSend(setup, campaign, item) || (called && reply != Accepted))
            && (after.status == Sent || Missed(after.status) || after.status == Unsubscribed)
  {
  }

  /** Rows appear unsent, or keep their stamp; other campaigns' rows are untouched. */
  ghost predicate Quiet(before: Rows, after: Rows, campaign: Id) {
    && before.Keys <= after.Keys
    && (forall d :: d in before ==>
          && after[d].sentAt == before[d].sentAt && after[d].config == before[d].config
          && after[d].campaign == before[d].campaign
          && (before[d].status == Sent ==> after[d].status == Sent)
          && (before[d].campaign != campaign ==> after[d] == before[d]))
    && (forall d :: d in after && d !in before ==> after[d].campaign == campaign && after[d].sentAt.None?)
  }

  lemma SweptIsQuiet(before: Rows, queued: Rows, campaign: Id, keys: set<Id>, now: Time)
    requires QueuedInto(before, queued, campaign, keys)
    ensures Quiet(before, map d | d in queued :: SweepRow(queued[d], campaign, now), campaign)
  {
  }

  lemma SameCount(before: Rows, after: Rows, config: Id, campaign: Id, lo: Time)
    requires Quiet(before, after, campaign)
    ensures SentSince(after, config, lo) == SentSince(before, config, lo)
  {
  }

  /** What a call has done to the rows when it is over: `stamped` of its campaign's rows became SENT. */
  ghost predicate CallDone(before: Rows, after: Rows, campaign: Id, stamped: set<Id>, since: Option<Time>) {
    && (forall d :: d in before ==> d in after && after[d].config == before[d].config)
    && (forall d :: d in stamped ==> d in after && after[d].campaign == campaign && after[d].status == Sent
                                     && (d in before ==> before[d].status != Sent)
                                     && (after[d].sentAt.Some? ==> NoEarlier(after[d].sentAt.value, since)))
    && (forall d :: d in before && before[d].campaign != campaign ==> after[d] == before[d])
    && (forall d :: d in after && d !in stamped ==>
          if d in before then after[d].sentAt == before[d].sentAt else after[d].sentAt.None?)
  }

  lemma QuietThenTurned(before: Rows, quiet: Rows, after: Rows, campaign: Id, stamped: set<Id>, since: Option<Time>)
    requires Quiet(before, quiet, campaign) && AllTurned(quiet, after, campaign, stamped, since)
    ensures CallDone(before, after, campaign, stamped, since)
  {
  }

  /** A call stamps within its allowance, and no row of another configuration. */
  lemma DoneIsCall(before: Rows, after: Rows, campaign: Id, stamped: set<Id>, since: Option<Time>, config: Id,
                   p: Provider, start: Time)
    requires CallDone(before, after, campaign, stamped, since) && |stamped| <= Allowance(before, config, p, start)
    requires forall d :: d in stamped ==> after[d].config == config
    ensures Stamps(before, after, config, Allowance(before, config, p, start), stamped)
    ensures since == Some(start) ==> NoneBefore(after, start, stamped) && CallOf(before, after, config, p)
    ensures forall c :: c != config ==> Elsewhere(before, after, c)
  {
    if since == Some(start) {
      assert Sends(before, after, config, start, Allowance(before, config, p, start), stamped);
    }
  }

  lemma {:induction false} OldestExists(rows: Rows, due: set<Id>)
    requires due != {} && forall d :: d in due ==> d in rows
    ensures exists d :: d in due && forall e :: e in due ==> rows[d].queuedAt <= rows[e].queuedAt
  {
    var x :| x in due;
    if due == {x} {
    } else {
      OldestExists(rows, due - {x});
      var d :| d in due - {x} && forall e :: e in due - {x} ==> rows[d].queuedAt <= rows[e].queuedAt;
      var m := if rows[x].queuedAt <= rows[d].queuedAt then x else d;
      forall e | e in due ensures rows[m].queuedAt <= rows[e].queuedAt {}
    }
  }

  /** A run under one configuration. */
  ghost predicate IsPlainRun(worlds: seq<World>, steps: seq<Step>) {
    IsRun(worlds, steps) && Start(worlds[0]) && forall k :: 0 <= k < |steps| ==> !steps[k].Reconfigure?
  }

  lemma RunExtends(worlds: seq<World>, steps: seq<Step>, s: Step)
    requires IsPlainRun(worlds, steps) && Enabled(worlds[|steps|], s) && !s.Reconfigure?
    ensures IsPlainRun(worlds + [Apply(worlds[|steps|], s)], steps + [s])
  {
  }

  /** The clock never falls behind its reading number `from`. */
  ghost predicate Steady(at: nat -> Time, from: nat) {
    forall i: nat :: from <= i ==> at(from) <= at(i)
  }

  /** What a call does after it has counted at `start`: with an adapter, the rows selected at `due` within the
      allowance are gone through and tallied; without, everything waiting is paused. */
  ghost predicate Worked(setup: Setup, before: Rows, after: Rows, campaign: Id, registered: bool, start: Time,
                         due: Time, report: Report)
    requires Configured(setup, campaign)
  {
    var allowance := Allowance(before, setup.configOf[campaign], ProviderOf(setup, campaign), start);
    && |report.stamped| <= allowance
    && if registered
       then IsSelection(before, campaign, due, allowance, report.ids)
            && Tallied(after, report.ids, report.stamped, report.missed)
       else report == Report([], {}, {}) && after == map d | d in before :: UnregisteredRow(before[d], campaign, start)
  }

  class Service {
    const setup: Setup
    var rows: Rows
    var crm: Crm
    ghost var workers: map<Id, Worker>
    ghost var calls: map<Id, seq<Call>>
    ghost var history: seq<World>
    ghost var taken: seq<Step>

    ghost function View(): World
      reads this
    {
      World(setup, rows, crm, workers, calls)
    }

    /** A worker's batch under the configuration its call read. */
    function Batch(campaign: Id, todo: seq<Snapshot>, task: Task): Worker
      requires Configured(setup, campaign)
    {
      Working(campaign, ProviderOf(setup, campaign).channels, todo, task)
    }

    /** Worker `v` has reached `task` with `item` at the head of its batch. */
    ghost predicate AtItem(v: Id, campaign: Id, item: Snapshot, task: Task)
      reads this
    {
      && Busy(View(), v) && Configured(setup, campaign)
      && workers[v] == Batch(campaign, workers[v].todo, task) && workers[v].todo[0] == item
    }

    /** The tables are the last state of a run of the protocol from its start. */
    ghost predicate Valid()
      reads this
    {
      IsPlainRun(history, taken) && history[|taken|] == View()
    }

    constructor (setup: Setup, crm: Crm)
      ensures Valid() && rows == map[] && this.crm == crm && this.setup == setup && workers == map[]
    {
      this.setup, this.crm := setup, crm;
      rows, workers, calls := map[], map[], map[];
      history, taken := [World(setup, map[], crm, map[], map[])], [];
    }

    lemma Reachable()
      requires Valid()
      ensures Inv(View())
    {
      NothingReopens(history, taken, |taken|);
    }

    lemma UnsentWhileWaiting()
      requires Valid()
      ensures forall d :: d in rows && Waiting(rows[d].status) ==> rows[d].sentAt.None?
    {
      Reachable();
      forall d | d in rows ensures RowOk(View(), d) {}
    }

    lemma RowsNameTheirConfig()
      requires Valid()
      ensures forall d :: d in rows ==>
                rows[d].campaign in setup.configOf && rows[d].config == setup.configOf[rows[d].campaign]
    {
      Reachable();
      forall d | d in rows ensures RowOk(View(), d) {}
    }

    /** Book-keeping after a statement: the tables already show the step's effect. */
    ghost method Take(s: Step)
      requires IsPlainRun(history, taken) && Enabled(history[|taken|], s) && !s.Reconfigure?
      requires history[|taken|].setup == setup
      requires rows == Apply(history[|taken|], s).rows && crm == Apply(history[|taken|], s).crm
      modifies this`workers, this`calls, this`history, this`taken
      ensures Valid() && taken == old(taken) + [s]
      ensures View() == Apply(old(history)[|old(taken)|], s)
    {
      var w := Apply(history[|taken|], s);
      RunExtends(history, taken, s);
      workers, calls := w.workers, w.calls;
      history, taken := history + [w], taken + [s];
    }

    /** Customers, consents and suppressions change under the workers. */
    method ChangeCrm(after: Crm)
      requires Valid() && Evolves(crm, after)
      modifies this
      ensures Valid() && View() == old(View()).(crm := after)
    {
      crm := after;
      Take(CrmChange(after));
    }

    /** The insert of queueCampaign: a key already present is left alone. */
    method Enqueue(campaign: Id, t: Target, now: Time) returns (added: bool)
      requires Valid() && Configured(setup, campaign) && ProviderOf(setup, campaign).maxAttempts > 0
      modifies this
      ensures Valid() && crm == old(crm) && workers == old(workers) && calls == old(calls)
      ensures added == (t.key !in old(rows)) && QueuedInto(old(rows), rows, campaign, {t.key})
    {
      added := t.key !in rows;
      if added {
        rows := rows[t.key := Delivery(campaign, setup.configOf[campaign], t.customer, t.channel, Queued, 0,
                                       ProviderOf(setup, campaign).maxAttempts, Some(now), now, None, now)];
      }
      Take(Step.Enqueue(t.key, campaign, t.customer, t.channel, now));
    }

    /** queueCampaign: one row per audience member, at most once. */
    method Queue(campaign: Id, audience: seq<Target>, now: Time) returns (queued: nat)
      requires Valid() && Configured(setup, campaign) && ProviderOf(setup, campaign).maxAttempts > 0
      modifies this
      ensures Valid() && crm == old(crm) && workers == old(workers) && calls == old(calls)
      ensures QueuedInto(old(rows), rows, campaign, Keys(audience))
      ensures queued == |rows.Keys| - |old(rows).Keys|
    {
      queued := 0;
      ghost var keys: set<Id> := {};
      for i := 0 to |audience|
        invariant Valid() && crm == old(crm) && workers == old(workers) && calls == old(calls)
        invariant keys == Keys(audience[..i]) && QueuedInto(old(rows), rows, campaign, keys)
        invariant queued == |rows.Keys| - |old(rows).Keys|
      {
        ghost var before := rows;
        var added := Enqueue(campaign, audience[i], now);
        QueuedTwice(old(rows), before, rows, campaign, keys, audience[i].key);
        CountQueued(before.Keys, rows.Keys, audience[i].key);
        KeysUpTo(audience, i);
        keys := keys + {audience[i].key};
        if added { queued := queued + 1; }
      }
      assert audience[..|audience|] == audience;
    }

    /** queueCampaign: behind its gate, and with the campaign set ACTIVE once its audience is queued. */
    method QueueCampaign(campaign: Id, row: CampaignRow, audience: seq<Target>, now: Time, stamp: Time)
      returns (gate: Gate, queued: nat, status: CampaignStatus)
      requires Valid() && Configured(setup, campaign) && ProviderOf(setup, campaign).maxAttempts > 0
      modifies this
      ensures Valid() && crm == old(crm) && workers == old(workers) && calls == old(calls)
      ensures gate == GateOf(row, now) && queued == |rows.Keys| - |old(rows).Keys|
      ensures if gate == Open then QueuedInto(old(rows), rows, campaign, Keys(audience)) else rows == old(rows)
      ensures status == if gate == Open then Activated else row.status
    {
      gate, queued, status := GateOf(row, now), 0, row.status;
      if gate == Open {
        queued := Queue(campaign, audience, stamp);
        status := Activated;
      }
    }

    /** The selection query: due rows, oldest first, up to the limit. */
    method SelectDue(campaign: Id, now: Time, limit: nat) returns (ids: seq<Id>)
      ensures IsSelection(rows, campaign, now, limit, ids)
    {
      var due := set d | d in rows && Due(rows[d], campaign, now);
      ids := [];
      while |ids| < limit && due != {}
        invariant |ids| <= limit
        invariant forall d :: d in due <==> d in rows && Due(rows[d], campaign, now) && d !in ids
        invariant forall i :: 0 <= i < |ids| ==> ids[i] in rows && Due(rows[ids[i]], campaign, now)
        invariant forall i, j :: 0 <= i < j < |ids| ==>
                    ids[i] != ids[j] && rows[ids[i]].queuedAt <= rows[ids[j]].queuedAt
        invariant forall i, d :: 0 <= i < |ids| && d in due ==> rows[ids[i]].queuedAt <= rows[d].queuedAt
      {
        OldestExists(rows, due);
        var d :| d in due && forall e :: e in due ==> rows[d].queuedAt <= rows[e].queuedAt;
        ids := ids + [d];
        due := due - {d};
      }
    }

    /** currentEligibility: four reads, stopping at the first that fails. */
    method CurrentEligibility(v: Id, ghost phase: Phase, item: Snapshot) returns (eligible: bool)
      requires Valid() && Busy(View(), v) && Item(View(), v) == item && workers[v].task == Checking(phase, 0)
      modifies this`workers, this`calls, this`history, this`taken
      ensures Valid() && calls == old(calls)
      ensures Busy(View(), v)
      ensures var task := if eligible then (if phase == First then Claiming else Ready) else Ineligible(phase);
              workers == old(workers)[v := old(workers)[v].(task := task)]
      ensures eligible <==> Eligible(crm, item.customer, item.channel)
    {
      var stage := 0;
      eligible := true;
      while stage < READS && eligible
        invariant stage <= READS && Valid() && calls == old(calls)
        invariant workers == old(workers)[v := old(workers)[v].(task :=
                    if !eligible then Ineligible(phase) else if stage < READS then Checking(phase, stage)
                    else if phase == First then Claiming else Ready)]
        invariant eligible ==> forall k :: 0 <= k < stage ==> ReadPasses(crm, item.customer, item.channel, k)
        invariant !eligible ==> !Eligible(crm, item.customer, item.channel)
      {
        assert WorkerOf(View(), v) == workers[v];
        eligible := ReadPasses(crm, item.customer, item.channel, stage);
        Take(Read(v));
        stage := stage + 1;
      }
    }

    /** The worker's item fails for want of a capability. */
    method GiveUp(v: Id, ghost campaign: Id, item: Snapshot, now: Time)
      requires Valid() && AtItem(v, campaign, item, NextItem) && !CanSend(setup, campaign, item)
      modifies this`rows, this`workers, this`calls, this`history, this`taken
      ensures Valid() && calls == old(calls)
      ensures workers == old(workers)[v := Batch(campaign, old(workers)[v].todo[1..], NextItem)]
      ensures rows == old(rows)[item.id := FailRow(old(rows)[item.id], item.attempts + 1, item.maxAttempts, true, now)]
    {
      rows := rows[item.id := FailRow(rows[item.id], item.attempts + 1, item.maxAttempts, true, now)];
      Take(Skip(v, now));
    }

    /** The worker's item is dropped for want of eligibility. */
    method LetGo(v: Id, ghost campaign: Id, item: Snapshot, phase: Phase, now: Time)
      requires Valid() && AtItem(v, campaign, item, Ineligible(phase))
      modifies this`rows, this`workers, this`calls, this`history, this`taken
      ensures Valid() && calls == old(calls)
      ensures workers == old(workers)[v := Batch(campaign, old(workers)[v].todo[1..], NextItem)]
      ensures rows == old(rows)[item.id := Unsubscribe(old(rows)[item.id], phase, now)]
    {
      rows := rows[item.id := Unsubscribe(rows[item.id], phase, now)];
      Take(Drop(v, now));
    }

    /** The check before the claim. */
    method Screen(v: Id, ghost campaign: Id, item: Snapshot, now: Time) returns (eligible: bool)
      requires Valid() && AtItem(v, campaign, item, NextItem) && CanSend(setup, campaign, item)
      modifies this`rows, this`workers, this`calls, this`history, this`taken
      ensures Valid() && calls == old(calls) && eligible == Eligible(crm, item.customer, item.channel)
      ensures workers == old(workers)[v := if eligible then Batch(campaign, old(workers)[v].todo, Claiming)
                                           else Batch(campaign, old(workers)[v].todo[1..], NextItem)]
      ensures rows == if eligible then old(rows)
                      else old(rows)[item.id := Unsubscribe(old(rows)[item.id], First, now)]
    {
      Take(Begin(v));
      eligible := CurrentEligibility(v, First, item);
      if !eligible { LetGo(v, campaign, item, First, now); }
    }

    /** The claim statement; no row changed means another worker got there first. */
    method ClaimItem(v: Id, ghost campaign: Id, item: Snapshot, now: Time) returns (changed: bool)
      requires Valid() && AtItem(v, campaign, item, Claiming)
      modifies this`rows, this`workers, this`calls, this`history, this`taken
      ensures Valid() && calls == old(calls)
      ensures changed == Claimable(old(rows)[item.id])
      ensures workers == old(workers)[v := if changed then Batch(campaign, old(workers)[v].todo, Checking(Second, 0))
                                           else Batch(campaign, old(workers)[v].todo[1..], NextItem)]
      ensures rows == old(rows)[item.id := Claimed(old(rows)[item.id], now)]
    {
      changed := Claimable(rows[item.id]);
      rows := rows[item.id := Claimed(rows[item.id], now)];
      Take(Claim(v, now));
    }

    /** The call to the provider and its answer. */
    ghost method Call(v: Id, campaign: Id, item: Snapshot, reply: Reply)
      requires Valid() && AtItem(v, campaign, item, Ready)
      modifies this`workers, this`calls, this`history, this`taken
      ensures Valid()
      ensures workers == old(workers)[v := Batch(campaign, old(workers)[v].todo, Recording(reply))]
      ensures calls == old(calls)[item.id := CallsOf(old(View()), item.id) + [Outcome(reply)]]
    {
      var made := CallsOf(View(), item.id);
      Take(Dispatch(v));
      Take(Answer(v, reply));
      assert CallsOf(View(), item.id) == made + [Outcome(reply)];
    }

    /** The call to the provider, its answer and the record of the result. */
    method Send(v: Id, ghost campaign: Id, item: Snapshot, reply: Reply, now: Time)
      requires Valid() && AtItem(v, campaign, item, Ready)
      modifies this`rows, this`workers, this`calls, this`history, this`taken
      ensures Valid()
      ensures workers == old(workers)[v := Batch(campaign, old(workers)[v].todo[1..], NextItem)]
      ensures rows == old(rows)[item.id := RecordRow(old(rows)[item.id], reply, item.attempts, item.maxAttempts, now)]
      ensures calls == old(calls)[item.id := CallsOf(old(View()), item.id) + [Outcome(reply)]]
    {
      Call(v, campaign, item, reply);
      rows := rows[item.id := RecordRow(rows[item.id], reply, item.attempts, item.maxAttempts, now)];
      Take(Record(v, now));
    }

    /** After a claim: check again, then call and record, or let go. */
    method Confirm(v: Id, ghost campaign: Id, item: Snapshot, recordedAt: Time, reply: Reply)
      returns (sent: nat, failed: nat)
      requires Valid() && AtItem(v, campaign, item, Checking(Second, 0))
      modifies this`rows, this`workers, this`calls, this`history, this`taken
      ensures Valid()
      ensures workers == old(workers)[v := Batch(campaign, old(workers)[v].todo[1..], NextItem)]
      ensures var row := old(rows)[item.id]; var eligible := Eligible(crm, item.customer, item.channel);
              var recorded := RecordRow(row, reply, item.attempts, item.maxAttempts, recordedAt);
              && rows == old(rows)[item.id := if eligible then recorded else Unsubscribe(row, Second, recordedAt)]
              && calls == (if eligible then old(calls)[item.id := CallsOf(old(View()), item.id) + [Outcome(reply)]]
                           else old(calls))
              && sent == (if eligible && reply == Accepted then 1 else 0)
              && failed == (if eligible && reply != Accepted then 1 else 0)
    {
      sent, failed := 0, 0;
      var confirmed := CurrentEligibility(v, Second, item);
      if confirmed {
        Send(v, campaign, item, reply, recordedAt);
        if reply == Accepted { sent := 1; } else { failed := 1; }
      } else {
        LetGo(v, campaign, item, Second, recordedAt);
      }
    }

    /** Claim, check again, call, record. */
    method Attempt(v: Id, ghost campaign: Id, item: Snapshot, meanwhile: Crm, claimedAt: Time, recordedAt: Time,
                   reply: Reply)
      returns (sent: nat, failed: nat)
      requires Valid() && AtItem(v, campaign, item, Claiming)
      requires Evolves(crm, meanwhile)
      modifies this
      ensures Valid() && crm == meanwhile
      ensures workers == old(workers)[v := Batch(campaign, old(workers)[v].todo[1..], NextItem)]
      ensures var row := old(rows)[item.id];
              && rows == old(rows)[item.id := Attempted(meanwhile, row, item, claimedAt, recordedAt, reply)]
              && calls == (if Reaches(meanwhile, row, item)
                           then old(calls)[item.id := CallsOf(old(View()), item.id) + [Outcome(reply)]] else old(calls))
              && sent == (if Reaches(meanwhile, row, item) && reply == Accepted then 1 else 0)
              && failed == (if Reaches(meanwhile, row, item) && reply != Accepted then 1 else 0)
    {
      sent, failed := 0, 0;
      var claimed := ClaimItem(v, campaign, item, claimedAt);
      ChangeCrm(meanwhile);
      if claimed { sent, failed := Confirm(v, campaign, item, recordedAt, reply); }
    }

    /** The body of the send loop for the delivery at the head of worker `v`'s batch: capability,
        eligibility, claim, eligibility again, the call, its answer, the record. */
    method ProcessOne(v: Id, campaign: Id, item: Snapshot, meanwhile: Crm, claimedAt: Time, recordedAt: Time,
                      reply: Reply)
      returns (sent: nat, failed: nat)
      requires Valid() && AtItem(v, campaign, item, NextItem)
      requires Evolves(crm, meanwhile)
      modifies this
      ensures Valid() && crm == meanwhile
      ensures workers == old(workers)[v := Batch(campaign, old(workers)[v].todo[1..], NextItem)]
      ensures rows
              == old(rows)[item.id := Processed(setup, old(crm), meanwhile, old(rows)[item.id], campaign, item,
                                                claimedAt, recordedAt, reply)]
      ensures calls == if Called(setup, old(crm), meanwhile, old(rows)[item.id], campaign, item)
                       then old(calls)[item.id := CallsOf(old(View()), item.id) + [Outcome(reply)]] else old(calls)
      ensures var called := Called(setup, old(crm), meanwhile, old(rows)[item.id], campaign, item);
              && sent == (if called && reply == Accepted then 1 else 0)
              && failed == (if !CanSend(setup, campaign, item) || (called && reply != Accepted) then 1 else 0)
    {
      sent, failed := 0, 0;
      if !CanSend(setup, campaign, item) {
        GiveUp(v, campaign, item, recordedAt);
        failed := 1;
        ChangeCrm(meanwhile);
        return;
      }
      var eligible := Screen(v, campaign, item, recordedAt);
      if eligible {
        sent, failed := Attempt(v, campaign, item, meanwhile, claimedAt, recordedAt, reply);
      } else {
        ChangeCrm(meanwhile);
      }
    }

    /** Rows a crashed worker left SENDING for ten minutes become UNKNOWN, never to be sent again. */
    method SweepStale(campaign: Id, now: Time)
      requires Valid()
      modifies this
      ensures Valid() && crm == old(crm) && workers == old(workers) && calls == old(calls)
      ensures rows == map d | d in old(rows) :: SweepRow(old(rows)[d], campaign, now)
    {
      rows := map d | d in rows :: SweepRow(rows[d], campaign, now);
      Take(Sweep(campaign, now));
    }

    /** No adapter is registered for the provider: everything waiting is put off. */
    method ParkUnregistered(campaign: Id, now: Time)
      requires Valid()
      modifies this
      ensures Valid() && crm == old(crm) && workers == old(workers) && calls == old(calls)
      ensures rows == map d | d in old(rows) :: UnregisteredRow(old(rows)[d], campaign, now)
      ensures forall since :: AllTurned(old(rows), rows, campaign, {}, since)
    {
      rows := map d | d in rows :: UnregisteredRow(rows[d], campaign, now);
      Take(Unregistered(campaign, now));
    }

    /** The selection statement, and the worker's copy of the rows it returned. */
    method SelectBatch(v: Id, campaign: Id, counted: Time, due: Time) returns (ids: seq<Id>, batch: seq<Snapshot>)
      requires Valid() && Configured(setup, campaign) && WorkerOf(View(), v).Idle?
      modifies this`workers, this`calls, this`history, this`taken
      ensures Valid() && calls == old(calls)
      ensures IsSelection(rows, campaign, due,
                          Allowance(rows, setup.configOf[campaign], ProviderOf(setup, campaign), counted), ids)
      ensures batch == Snapshots(rows, ids)
      ensures workers == old(workers)[v := Batch(campaign, batch, NextItem)]
    {
      Take(Load(v, campaign));
      var allowance := Allowance(rows, setup.configOf[campaign], ProviderOf(setup, campaign), counted);
      Take(Count(v, counted));
      ids := SelectDue(campaign, due, allowance);
      batch := Snapshots(rows, ids);
      Take(Select(v, due, ids));
    }

    /** Turn `i` of the send loop, measured against the rows as they were selected. */
    method Turn(v: Id, campaign: Id, batch: seq<Snapshot>, i: nat, ghost selected: Rows, ghost report: Report,
                ghost since: Option<Time>, meanwhile: Crm, claimedAt: Time, recordedAt: Time, reply: Reply)
      returns (s: nat, f: nat, ghost report': Report)
      requires Valid() && i < |batch| == |report.ids| && Configured(setup, campaign)
      requires WorkerOf(View(), v) == Batch(campaign, batch[i..], NextItem) && Evolves(crm, meanwhile)
      requires NoEarlier(recordedAt, since)
      requires var d := report.ids[i];
               && batch[i].id == d && d !in report.ids[..i] && d in selected && selected[d].campaign == campaign
               && Claimable(selected[d]) && selected[d].sentAt.None?
      requires Progress(selected, rows, campaign, report.ids[..i], report.stamped, since)
      requires Tallied(rows, report.ids[..i], report.stamped, report.missed)
      modifies this
      ensures Valid() && crm == meanwhile && WorkerOf(View(), v) == Batch(campaign, batch[i + 1..], NextItem)
      ensures report'.ids == report.ids
      ensures Progress(selected, rows, campaign, report.ids[..i + 1], report'.stamped, since)
      ensures Tallied(rows, report.ids[..i + 1], report'.stamped, report'.missed)
      ensures s <= 1 && |report'.stamped| == |report.stamped| + s && |report'.missed| == |report.missed| + f
    {
      ghost var before, was, d := rows, crm, report.ids[i];
      s, f := ProcessOne(v, campaign, batch[i], meanwhile, claimedAt, recordedAt, reply);
      ProcessedTurns(setup, was, meanwhile, before[d], campaign, batch[i], claimedAt, recordedAt, reply, since);
      TurnEnds(setup, was, meanwhile, before[d], campaign, batch[i], claimedAt, recordedAt, reply);
      MoreProgress(selected, before, campaign, report.ids, i, report.stamped, since, rows[d], s == 1);
      TallyOneMore(before, rows, report.ids, i, report.stamped, report.missed);
      report' := Report(report.ids, if s == 1 then report.stamped + {d} else report.stamped,
                        if f == 1 then report.missed + {d} else report.missed);
    }

    /** The selection and the send loop. `crmAt(i)` are the CRM tables while delivery i is in hand. */
    method SendBatch(v: Id, campaign: Id, start: Time, due: Time, ghost since: Option<Time>, clock: nat -> Time,
                     crmAt: nat -> Crm, replies: Id -> Reply)
      returns (sent: nat, failed: nat, ghost report: Report)
      requires Valid() && Configured(setup, campaign) && WorkerOf(View(), v).Idle?
      requires forall i: nat :: NoEarlier(clock(i), since)
      requires Evolves(crm, crmAt(0)) && forall i: nat :: Evolves(crmAt(i), crmAt(i + 1))
      modifies this
      ensures Valid() && WorkerOf(View(), v).Idle?
      ensures AllTurned(old(rows), rows, campaign, report.stamped, since)
      ensures var allowance := Allowance(old(rows), setup.configOf[campaign], ProviderOf(setup, campaign), start);
              && IsSelection(old(rows), campaign, due, allowance, report.ids)
              && sent == |report.stamped| <= allowance
      ensures Tallied(rows, report.ids, report.stamped, report.missed) && failed == |report.missed|
    {
      UnsentWhileWaiting();
      var ids, batch := SelectBatch(v, campaign, start, due);
      sent, failed, report := 0, 0, Report(ids, {}, {});
      var i := 0;
      while i < |batch|
        invariant i <= |batch| && Valid() && report.ids == ids
        invariant WorkerOf(View(), v) == Batch(campaign, batch[i..], NextItem)
        invariant Evolves(crm, crmAt(i))
        invariant Progress(old(rows), rows, campaign, ids[..i], report.stamped, since)
        invariant Tallied(rows, ids[..i], report.stamped, report.missed)
        invariant sent == |report.stamped| <= i && failed == |report.missed|
      {
        var s, f;
        s, f, report := Turn(v, campaign, batch, i, old(rows), report, since, crmAt(i), clock(2 * i), clock(2 * i + 1),
                             replies(batch[i].id));
        sent, failed := sent + s, failed + f;
        i := i + 1;
      }
      assert ids[..|batch|] == ids;
      Take(Finish(v));
    }

    /** What precedes the count of the last minute: queueing the audience and sweeping stale rows. */
    method Prepare(campaign: Id, row: CampaignRow, audience: seq<Target>, now: Time, queuedAt: Time, sweptAt: Time)
      requires Valid() && Configured(setup, campaign) && ProviderOf(setup, campaign).maxAttempts > 0
      modifies this
      ensures Valid() && crm == old(crm) && workers == old(workers) && calls == old(calls)
      ensures Quiet(old(rows), rows, campaign)
    {
      var gate, queued, status := QueueCampaign(campaign, row, audience, now, queuedAt);
      ghost var asQueued := rows;
      if gate != Open { assert QueuedInto(old(rows), asQueued, campaign, {}); }
      SweepStale(campaign, sweptAt);
      SweptIsQuiet(old(rows), asQueued, campaign, if gate == Open then Keys(audience) else {}, sweptAt);
    }

    /** What follows the count: the send loop, or for want of an adapter a pause of everything. */
    method Work(v: Id, campaign: Id, registered: bool, ghost since: Option<Time>, at: nat -> Time, crmAt: nat -> Crm,
                replies: Id -> Reply)
      returns (sent: nat, failed: nat, ghost report: Report)
      requires Valid() && Configured(setup, campaign) && WorkerOf(View(), v).Idle?
      requires forall i: nat :: 4 <= i ==> NoEarlier(at(i), since)
      requires Evolves(crm, crmAt(0)) && forall i: nat :: Evolves(crmAt(i), crmAt(i + 1))
      modifies this
      ensures Valid() && WorkerOf(View(), v).Idle?
      ensures AllTurned(old(rows), rows, campaign, report.stamped, since)
      ensures Worked(setup, old(rows), rows, campaign, registered, at(2), at(3), report)
      ensures sent == |report.stamped| && failed == |report.missed|
    {
      if registered {
        sent, failed, report := SendBatch(v, campaign, at(2), at(3), since, (i: nat) => at(4 + i), crmAt, replies);
      } else {
        sent, failed, report := 0, 0, Report([], {}, {});
        ParkUnregistered(campaign, at(2));
      }
    }

    /** processCampaign: stop at a campaign that is over or refused; queue, sweep, count the last
        minute, select a batch and work through it.
        `registered` says whether the provider key has an adapter; `at(i)` is the i-th clock reading;
        `counted` are the rows when the last minute was counted. */
    method ProcessCampaign(v: Id, campaign: Id, row: CampaignRow, audience: seq<Target>, registered: bool,
                           at: nat -> Time, crmAt: nat -> Crm, replies: Id -> Reply)
      returns (refused: bool, sent: nat, failed: nat, ghost counted: Rows, ghost report: Report)
      requires Valid() && Configured(setup, campaign) && ProviderOf(setup, campaign).maxAttempts > 0
      requires WorkerOf(View(), v).Idle?
      requires Evolves(crm, crmAt(0)) && forall i: nat :: Evolves(crmAt(i), crmAt(i + 1))
      modifies this
      ensures Valid() && WorkerOf(View(), v).Idle?
      ensures refused == (GateOf(row, at(0)) == Barred)
      ensures sent == |report.stamped| && failed == |report.missed|
      ensures if refused || GateOf(row, at(0)) == Over then rows == old(rows) && sent == 0 && failed == 0
              else Quiet(old(rows), counted, campaign)
                   && Worked(setup, counted, rows, campaign, registered, at(2), at(3), report)
      ensures CallDone(old(rows), rows, campaign, report.stamped, if Steady(at, 2) then Some(at(2)) else None)
      ensures var config := setup.configOf[campaign]; var p := setup.providers[config];
              && Stamps(old(rows), rows, config, Allowance(old(rows), config, p, at(2)), report.stamped)
              && (Steady(at, 2) ==> CallOf(old(rows), rows, config, p))
              && forall c :: c != config ==> Elsewhere(old(rows), rows, c)
    {
      sent, failed, report, counted := 0, 0, Report([], {}, {}), rows;
      refused := GateOf(row, at(0)) == Barred;
      ghost var since := if Steady(at, 2) then Some(at(2)) else None;
      ghost var config := setup.configOf[campaign];
      if !refused && GateOf(row, at(0)) != Over {
        Prepare(campaign, row, audience, at(0), at(0), at(1));
        counted := rows;
        SameCount(old(rows), counted, config, campaign, at(2) - MINUTE);
        sent, failed, report := Work(v, campaign, registered, since, at, crmAt, replies);
      }
      QuietThenTurned(old(rows), counted, rows, campaign, report.stamped, since);
      RowsNameTheirConfig();
      DoneIsCall(old(rows), rows, campaign, report.stamped, since, config, setup.providers[config], at(2));
    }
  }
}
