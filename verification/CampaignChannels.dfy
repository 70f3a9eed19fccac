/**
 At-most-once under a condition an operator can check: a provider's channels change only while no
 worker is in a call of its campaigns. Limits, attempts and everything else change freely.
 */
module CampaignChannels {
  import opened Common
  import opened Consent
  import opened Campaign
  import opened CampaignSafety

  // --- The condition ------------------------------------------------------------------------------

  /** The worker is in a call of a campaign that uses configuration `p`. */
  predicate WorksFor(setup: Setup, u: Worker, p: Id) {
    !u.Idle? && u.campaign in setup.configOf && setup.configOf[u.campaign] == p
  }

  /** Channels change only where nobody is at work. */
  ghost predicate ChangesIdleOnly(w: World, setup: Setup) {
    forall p, v :: p in w.setup.providers && v in w.workers && WorksFor(w.setup, w.workers[v], p) ==>
      p in setup.providers && setup.providers[p].channels == w.setup.providers[p].channels
  }

  ghost predicate ChannelsChangeIdle(worlds: seq<World>, steps: seq<Step>, n: nat)
    requires n <= |steps| < |worlds|
  {
    forall k {:trigger steps[k]} :: 0 <= k < n && steps[k].Reconfigure? ==> ChangesIdleOnly(worlds[k], steps[k].setup)
  }

  /** The special case of capabilities that are fixed for the run. */
  ghost predicate ChannelsFixed(worlds: seq<World>, steps: seq<Step>, n: nat)
    requires n <= |steps| < |worlds|
  {
    forall k, p {:trigger steps[k], worlds[k].setup.providers[p]} ::
      0 <= k < n && steps[k].Reconfigure? && p in worlds[k].setup.providers ==>
        p in steps[k].setup.providers && steps[k].setup.providers[p].channels == worlds[k].setup.providers[p].channels
  }

  // --- What it keeps ------------------------------------------------------------------------------

  function ChannelsOf(u: Worker): set<Channel>
    requires !u.Idle?
  {
    if u.Loaded? then u.provider.channels else u.channels
  }

  /** The worker knows its configuration's channels, and past the top of the loop its item's is one. */
  predicate WorkerKnows(setup: Setup, u: Worker) {
    !u.Idle? ==>
      && Configured(setup, u.campaign) && ChannelsOf(u) == ProviderOf(setup, u.campaign).channels
      && (u.Working? && u.task != NextItem ==> u.todo != [] && u.todo[0].channel in u.channels)
  }

  /** Whoever has a row in its batch that is being sent can send it. */
  ghost predicate SendsAreCapable(rows: Rows, u: Worker) {
    u.Working? ==>
      forall i :: 0 <= i < |u.todo| && u.todo[i].id in rows && rows[u.todo[i].id].status == Sending ==>
        u.todo[i].channel in u.channels
  }

  ghost predicate Knowing(w: World) {
    forall v :: v in w.workers ==> WorkerKnows(w.setup, w.workers[v]) && SendsAreCapable(w.rows, w.workers[v])
  }

  /** So a capability failure never meets a row that is being sent. */
  lemma SkipMeetsNoSend(w: World, s: Step)
    requires Knowing(w) && Enabled(w, s)
    ensures !Reopens(w, s)
  {
    if s.Skip? { assert SendsAreCapable(w.rows, w.workers[s.v]); }
  }

  /** No row starts being sent. */
  ghost predicate NoNewSends(before: Rows, after: Rows) {
    forall d :: d in after && after[d].status == Sending ==> d in before && before[d].status == Sending
  }

  /** A worker's own step other than a claim. */
  lemma OwnStepKeepsKnowing(w: World, w': World, v: Id, u: Worker)
    requires Knowing(w) && w'.setup == w.setup && w'.workers == w.workers[v := u] && NoNewSends(w.rows, w'.rows)
    requires WorkerKnows(w.setup, u) && SendsAreCapable(w'.rows, u)
    ensures Knowing(w')
  {
    forall o | o in w'.workers ensures WorkerKnows(w'.setup, w'.workers[o]) && SendsAreCapable(w'.rows, w'.workers[o]) {
      if o != v { assert SendsAreCapable(w.rows, w.workers[o]); }
    }
  }

  lemma TableStepKeepsKnowing(w: World, s: Step)
    requires Knowing(w) && (s.Enqueue? || s.Sweep? || s.Unregistered? || s.CrmChange?) && Enabled(w, s)
    ensures Knowing(Apply(w, s))
  {
    var w' := Apply(w, s);
    assert NoNewSends(w.rows, w'.rows);
    forall o | o in w'.workers ensures SendsAreCapable(w'.rows, w'.workers[o]) {
      assert SendsAreCapable(w.rows, w.workers[o]);
    }
  }

  lemma ReconfigureKeepsKnowing(w: World, s: Step)
    requires Knowing(w) && s.Reconfigure? && Enabled(w, s) && ChangesIdleOnly(w, s.setup)
    ensures Knowing(Apply(w, s))
  {
    forall v | v in w.workers ensures WorkerKnows(s.setup, w.workers[v]) {
      var u := w.workers[v];
      if !u.Idle? {
        assert WorkerKnows(w.setup, u);
        assert WorksFor(w.setup, u, w.setup.configOf[u.campaign]);
      }
    }
  }

  lemma LoopStepKeepsKnowing(w: World, s: Step)
    requires Knowing(w) && (s.Load? || s.Count? || s.Select? || s.Finish? || s.Crash?) && Enabled(w, s)
    ensures Knowing(Apply(w, s))
  {
    if s.v in w.workers { assert WorkerKnows(w.setup, w.workers[s.v]); }
    OwnStepKeepsKnowing(w, Apply(w, s), s.v, Apply(w, s).workers[s.v]);
  }

  /** A step at an item, the claim excepted. */
  lemma ItemStepKeepsKnowing(w: World, s: Step)
    requires Knowing(w) && Enabled(w, s)
    requires s.Skip? || s.Begin? || s.Read? || s.Drop? || s.Dispatch? || s.Answer? || s.Record?
    ensures Knowing(Apply(w, s))
  {
    var u, w' := w.workers[s.v], Apply(w, s);
    assert WorkerKnows(w.setup, u) && SendsAreCapable(w.rows, u);
    var u' := w'.workers[s.v];
    assert NoNewSends(w.rows, w'.rows);
    assert u'.todo == u.todo || u'.todo == u.todo[1..];
    OwnStepKeepsKnowing(w, w', s.v, u');
  }

  /** Workers on one campaign know the same channels, so what one claims the others could send too. */
  lemma ClaimKeepsKnowing(w: World, s: Step)
    requires Inv(w) && Knowing(w) && s.Claim? && Enabled(w, s)
    ensures Knowing(Apply(w, s))
  {
    var w', d := Apply(w, s), Item(w, s.v).id;
    BusyFacts(w, s.v);
    forall o | o in w'.workers ensures WorkerKnows(w'.setup, w'.workers[o]) && SendsAreCapable(w'.rows, w'.workers[o]) {
      ClaimIsShared(w, s, o);
    }
  }

  lemma ClaimIsShared(w: World, s: Step, o: Id)
    requires Inv(w) && Knowing(w) && s.Claim? && Enabled(w, s) && o in w.workers
    ensures WorkerKnows(w.setup, Apply(w, s).workers[o]) && SendsAreCapable(Apply(w, s).rows, Apply(w, s).workers[o])
  {
    var mine, u := w.workers[s.v], w.workers[o];
    assert WorkerKnows(w.setup, mine) && WorkerKnows(w.setup, u) && SendsAreCapable(w.rows, u);
    assert WorkerOk(w, mine) && WorkerOk(w, u);
    if u.Working? {
      forall i | 0 <= i < |u.todo| && u.todo[i].id == mine.todo[0].id ensures u.todo[i].channel in u.channels {
        assert Matches(w, u.campaign, u.todo[i]) && Matches(w, mine.campaign, mine.todo[0]);
      }
    }
  }

  lemma StepKeepsKnowing(w: World, s: Step)
    requires Inv(w) && Knowing(w) && Enabled(w, s) && (s.Reconfigure? ==> ChangesIdleOnly(w, s.setup))
    ensures Knowing(Apply(w, s))
  {
    if s.Enqueue? || s.Sweep? || s.Unregistered? || s.CrmChange? { TableStepKeepsKnowing(w, s); }
    else if s.Reconfigure? { ReconfigureKeepsKnowing(w, s); }
    else if s.Load? || s.Count? || s.Select? || s.Finish? || s.Crash? { LoopStepKeepsKnowing(w, s); }
    else if s.Claim? { ClaimKeepsKnowing(w, s); }
    else { ItemStepKeepsKnowing(w, s); }
  }

  // --- Whole runs ---------------------------------------------------------------------------------

  lemma {:induction false} NothingReopens(worlds: seq<World>, steps: seq<Step>, n: nat)
    requires IsRun(worlds, steps) && Start(worlds[0]) && n <= |steps| && ChannelsChangeIdle(worlds, steps, n)
    ensures NeverReopens(worlds, steps, n) && Inv(worlds[n]) && Knowing(worlds[n])
  {
    if n > 0 {
      NothingReopens(worlds, steps, n - 1);
      SkipMeetsNoSend(worlds[n - 1], steps[n - 1]);
      StepKeepsInv(worlds[n - 1], steps[n - 1]);
      StepKeepsKnowing(worlds[n - 1], steps[n - 1]);
    }
  }

  /** At-most-once in every run in which a provider's channels change only while nobody works for it. */
  lemma AtMostOnceWithIdleChanges(worlds: seq<World>, steps: seq<Step>, i: nat, d: Id)
    requires IsRun(worlds, steps) && Start(worlds[0]) && i <= |steps| && d in worlds[i].rows
    requires ChannelsChangeIdle(worlds, steps, i)
    ensures OnceAtMost(worlds[i], d)
    ensures worlds[i].rows[d].status == Sent || worlds[i].rows[d].status == Unsubscribed ==> !Held(worlds[i], d)
  {
    NothingReopens(worlds, steps, i);
    AtMostOnce(worlds, steps, i, d);
    if worlds[i].rows[d].status == Sent || worlds[i].rows[d].status == Unsubscribed {
      EndedIsNotHeld(worlds, steps, i, d);
    }
  }

  /** In particular with capabilities fixed for the run, whatever happens to limits and attempts. */
  lemma AtMostOnceWithFixedChannels(worlds: seq<World>, steps: seq<Step>, i: nat, d: Id)
    requires IsRun(worlds, steps) && Start(worlds[0]) && i <= |steps| && d in worlds[i].rows
    requires ChannelsFixed(worlds, steps, i)
    ensures OnceAtMost(worlds[i], d)
    ensures worlds[i].rows[d].status == Sent || worlds[i].rows[d].status == Unsubscribed ==> !Held(worlds[i], d)
  {
    AtMostOnceWithIdleChanges(worlds, steps, i, d);
  }
}
