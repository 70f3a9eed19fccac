/**
 The lead pipeline: a lead row guarded by its version, an event log beside it, and request keys
 that make creation and change repeatable. Clients read first and commit one batch later.
 */
module Leads {
  import opened Common
  import opened Text

  datatype Stage = New | Contacted | Qualified | Proposal | Won | Lost

  function Transitions(s: Stage): set<Stage> {
    match s
    case New => {Contacted, Qualified, Lost}
    case Contacted => {Qualified, Lost}
    case Qualified => {Proposal, Lost}
    case Proposal => {Won, Lost}
    case Won => {}
    case Lost => {}
  }

  predicate Closed(s: Stage) {
    s == Won || s == Lost
  }

  // --- Tables ---------------------------------------------------------------------------------

  /** What a creation request carries; `details` stands for the columns no update touches. */
  datatype Opening = Opening(branch: Id, details: Id, value: int, nextAction: Option<string>, due: Option<Time>)

  /** A field of an update: left out, or set, possibly to null. */
  datatype Due = Keep | Put(due: Option<Time>)

  datatype Change = Change(stage: Stage, expectedVersion: int, nextAction: Option<string>, due: Due,
                           reason: Option<string>)

  /** What the log stores of a request: an opening writes an empty object, and an omitted next
      action is spelled out as a text. */
  datatype Payload = Empty | Recorded(stage: Stage, expectedVersion: int, nextAction: string, due: Due,
                                      reason: Option<string>)

  /** One row of crm_leads, identified by its place. */
  datatype Lead = Lead(opening: Opening, requestKey: Id, stage: Stage, version: int, lastKey: Id,
                       nextAction: Option<string>, due: Option<Time>)

  /** One row of crm_lead_events. */
  datatype Event = Event(lead: nat, key: Id, payload: Payload, from: Option<Stage>, to: Stage, note: Option<string>)

  datatype Db = Db(leads: seq<Lead>, events: seq<Event>)

  // --- Requests -----------------------------------------------------------------------------------

  const UNCHANGED := "__UNCHANGED__"

  /** Trimmed, and missing when nothing is left. */
  function NonEmpty(text: Option<string>): Option<string> {
    if text.None? || Trim(text.value) == "" then None else Some(Trim(text.value))
  }

  /** canonicalUpdatePayload. */
  function Canonical(c: Change): Payload {
    Recorded(c.stage, c.expectedVersion, if c.nextAction.None? then UNCHANGED
                                         else Trim(c.nextAction.value), c.due, NonEmpty(c.reason))
  }

  /** The next action is set to the very text that stands for an omitted one. */
  predicate SpellsSentinel(c: Change) {
    c.nextAction.Some? && Trim(c.nextAction.value) == UNCHANGED
  }

  datatype Error = Invalid | Denied | NotFound | Conflict | InvalidState

  /** The checks of update on the row it read, in order. */
  function Check(row: Lead, c: Change): Option<Error> {
    if row.version != c.expectedVersion then Some(Conflict)
    else if Closed(row.stage) then Some(InvalidState)
    else if c.stage != row.stage && c.stage !in Transitions(row.stage) then Some(InvalidState)
    else if Closed(c.stage) && (c.reason.None? || |Trim(c.reason.value)| < 4) then Some(Invalid)
    else if c.stage == row.stage && c.nextAction.None? && c.due.Keep? then Some(Invalid)
    else None
  }

  predicate Used(events: seq<Event>, lead: nat, key: Id) {
    exists i :: 0 <= i < |events| && events[i].lead == lead && events[i].key == key
  }

  // --- What the checks come to ----------------------------------------------------------------------

  /** The moves a lead can make: forward one step at a time, NEW also straight to QUALIFIED, and to LOST
      from anywhere but the two ends. */
  lemma MovesAre(a: Stage, b: Stage)
    ensures b in Transitions(a)
            <==> (|| (a == New && b == Contacted) || (a == New && b == Qualified) || (a == Contacted && b == Qualified)
                  || (a == Qualified && b == Proposal) || (a == Proposal && b == Won)
                  || (b == Lost && a != Won && a != Lost))
  {
  }

  /** Ending a lead takes a reason of four characters or more, white space around it not counted. */
  predicate Explained(c: Change) {
    c.reason.Some? && |Trim(c.reason.value)| >= 4
  }

  /** A change is accepted exactly when the client saw the current version of a lead that is not closed,
      and either moves it, with a reason where that closes it, or changes something where it stands. */
  lemma AcceptedExactlyWhen(row: Lead, c: Change)
    ensures Check(row, c).None?
            <==> (&& c.expectedVersion == row.version && row.stage != Won && row.stage != Lost
                  && if c.stage == row.stage then c.nextAction.Some? || c.due.Put?
                     else c.stage in Transitions(row.stage) && (c.stage == Won || c.stage == Lost ==> Explained(c)))
    ensures Check(row, c) == Some(Conflict) <==> c.expectedVersion != row.version
    ensures Check(row, c) == Some(Invalid)
            <==> (&& c.expectedVersion == row.version && row.stage != Won && row.stage != Lost
                  && (|| (c.stage == row.stage && c.nextAction.None? && c.due.Keep?)
                      || (c.stage in Transitions(row.stage) && (c.stage == Won || c.stage == Lost) && !Explained(c))))
  {
  }

  // --- The atomic batches -------------------------------------------------------------------------

  /** canonicalCreatePayload. */
  function CanonicalOpening(o: Opening): Opening {
    o.(nextAction := NonEmpty(o.nextAction))
  }

  /** The lead row as creation inserts it. */
  function Opened(o: Opening, key: Id): Lead {
    Lead(CanonicalOpening(o), key, New, 1, key, NonEmpty(o.nextAction), o.due)
  }

  predicate TakenKey(leads: seq<Lead>, key: Id) {
    exists i :: 0 <= i < |leads| && leads[i].requestKey == key
  }

  /** create's batch: the lead unless its key is taken, and an event only beside a new lead. */
  function CreateBatch(d: Db, o: Opening, key: Id): Db {
    if TakenKey(d.leads, key) then d
    else Db(d.leads + [Opened(o, key)], d.events + [Event(|d.leads|, key, Empty, None, New, None)])
  }

  /** The UPDATE's assignments. */
  function Changed(row: Lead, c: Change, key: Id): Lead {
    row.(stage := c.stage, version := row.version + 1, lastKey := key,
         nextAction := if c.nextAction.None? then row.nextAction else Some(Trim(c.nextAction.value)),
         due := if c.due.Keep? then row.due else c.due.due)
  }

  /** The event an accepted change leaves in the log. */
  function EventOf(l: nat, row: Lead, c: Change, key: Id): Event {
    Event(l, key, Canonical(c), Some(row.stage), c.stage, NonEmpty(c.reason))
  }

  /** update's batch for a client that read `seen`. The event is selected by key and version alone,
      so a client that lost a race to its own key tries to insert a second event; the unique key of
      the log then fails the whole batch. */
  function UpdateBatch(d: Db, lead: nat, seen: Lead, c: Change, key: Id): Db
    requires lead < |d.leads|
  {
    var row := d.leads[lead];
    var after := if row.stage == seen.stage && row.version == seen.version then Changed(row, c, key) else row;
    if after.lastKey == key && after.version == seen.version + 1 then
      if Used(d.events, lead, key) then d
      else Db(d.leads[lead := after], d.events + [EventOf(lead, seen, c, key)])
    else d.(leads := d.leads[lead := after])
  }

  /** The row an accepted change leaves, column by column. */
  lemma ChangeIs(row: Lead, c: Change, key: Id)
    ensures var after := Changed(row, c, key);
            && after.opening == row.opening && after.requestKey == row.requestKey
            && after.stage == c.stage && after.version == row.version + 1 && after.lastKey == key
            && (c.nextAction.None? ==> after.nextAction == row.nextAction)
            && (c.nextAction.Some? ==> after.nextAction == Some(Trim(c.nextAction.value)))
            && (c.due.Keep? ==> after.due == row.due) && (c.due.Put? ==> after.due == c.due.due)
  {
  }

  /** A new lead is NEW at version one, with its next action trimmed and an empty one left out. */
  lemma OpeningIs(o: Opening, key: Id)
    ensures var row := Opened(o, key);
            && row.stage == New && row.version == 1 && row.requestKey == key && row.lastKey == key && row.due == o.due
            && row.opening.branch == o.branch && row.opening.details == o.details && row.opening.value == o.value
            && row.opening.due == o.due && row.opening.nextAction == row.nextAction
            && (row.nextAction.Some? <==> o.nextAction.Some? && |Trim(o.nextAction.value)| > 0)
            && (row.nextAction.Some? ==> row.nextAction.value == Trim(o.nextAction.value))
  {
  }

  /** The event of a change records what was asked for, spelling an omitted next action out. */
  lemma EventIs(l: nat, row: Lead, c: Change, key: Id)
    ensures var e := EventOf(l, row, c, key);
            && e.lead == l && e.key == key && e.from == Some(row.stage) && e.to == c.stage
            && (e.note.Some? <==> c.reason.Some? && |Trim(c.reason.value)| > 0)
            && (e.note.Some? ==> e.note.value == Trim(c.reason.value))
            && e.payload.Recorded? && e.payload.stage == c.stage && e.payload.expectedVersion == c.expectedVersion
            && e.payload.due == c.due && e.payload.reason == e.note
            && e.payload.nextAction == if c.nextAction.Some? then Trim(c.nextAction.value) else UNCHANGED
  {
  }

  datatype Step =
    | Create(opening: Opening, key: Id)
    | Update(lead: nat, change: Change, key: Id, read: nat, looked: nat)

  /** A client reads the lead in state `read`, finds its key unused in state `looked`, and commits
      any time later. */
  ghost predicate Enabled(states: seq<Db>, i: nat, s: Step)
    requires i < |states|
  {
    match s
    case Create(o, _) => 0 <= o.value <= MAX_SAFE
    case Update(l, c, key, read, looked) =>
      && read <= looked <= i && l < |states[read].leads| && l < |states[i].leads|
      && !Used(states[looked].events, l, key) && Check(states[read].leads[l], c) == None
  }

  ghost function Apply(states: seq<Db>, i: nat, s: Step): Db
    requires i < |states| && Enabled(states, i, s)
  {
    match s
    case Create(o, key) => CreateBatch(states[i], o, key)
    case Update(l, c, key, read, _) => UpdateBatch(states[i], l, states[read].leads[l], c, key)
  }

  ghost predicate IsRun(states: seq<Db>, steps: seq<Step>) {
    && |states| == |steps| + 1 && states[0] == Db([], [])
    && forall i {:trigger steps[i]} :: 0 <= i < |steps| ==>
         Enabled(states, i, steps[i]) && states[i + 1] == Apply(states, i, steps[i])
  }

  // --- The log of one lead ------------------------------------------------------------------------

  function LogOf(events: seq<Event>, lead: nat): seq<Event> {
    if events == [] then []
    else if events[|events| - 1].lead == lead then LogOf(events[..|events| - 1], lead) + [events[|events| - 1]]
    else LogOf(events[..|events| - 1], lead)
  }

  predicate Moves(a: Stage, b: Stage) {
    !Closed(a) && (a == b || b in Transitions(a))
  }

  /** The log opens with NEW, and each later event starts where the one before it ended. */
  predicate Chained(log: seq<Event>) {
    && log != [] && log[0].from == None && log[0].to == New && log[0].payload == Empty
    && forall k :: 1 <= k < |log| ==> log[k].from == Some(log[k - 1].to) && Moves(log[k - 1].to, log[k].to)
                                      && log[k].payload.Recorded? && log[k].payload.stage == log[k].to
                                      && log[k].payload.expectedVersion == k
  }

  predicate DifferentKeys(log: seq<Event>) {
    forall j, k :: 0 <= j < k < |log| ==> log[j].key != log[k].key
  }

  /** The row says what its log says. */
  predicate Agrees(row: Lead, log: seq<Event>) {
    Chained(log) && DifferentKeys(log) && row.version == |log| && row.stage == log[|log| - 1].to
    && row.lastKey == log[|log| - 1].key
    && log[0].key == row.requestKey
  }

  ghost predicate Sound(d: Db) {
    && (forall l :: 0 <= l < |d.leads| ==> Agrees(d.leads[l], LogOf(d.events, l)))
    && (forall e :: 0 <= e < |d.events| ==> d.events[e].lead < |d.leads|)
    && (forall j, k :: 0 <= j < k < |d.leads| ==> d.leads[j].requestKey != d.leads[k].requestKey)
  }

  lemma LogAfter(events: seq<Event>, e: Event, lead: nat)
    ensures LogOf(events + [e], lead) == if e.lead == lead then LogOf(events, lead) + [e] else LogOf(events, lead)
  {
    assert (events + [e])[..|events|] == events;
  }

  predicate HasKey(log: seq<Event>, key: Id) {
    exists k :: 0 <= k < |log| && log[k].key == key
  }

  lemma HasKeyAfter(log: seq<Event>, e: Event, key: Id)
    ensures HasKey(log + [e], key) <==> HasKey(log, key) || e.key == key
  {
    if HasKey(log, key) {
      var k :| 0 <= k < |log| && log[k].key == key;
      assert (log + [e])[k].key == key;
    }
    assert (log + [e])[|log|] == e;
  }

  lemma UsedAfter(events: seq<Event>, e: Event, lead: nat, key: Id)
    ensures Used(events + [e], lead, key) <==> Used(events, lead, key) || (e.lead == lead && e.key == key)
  {
    if Used(events, lead, key) {
      var k :| 0 <= k < |events| && events[k].lead == lead && events[k].key == key;
      assert (events + [e])[k] == events[k];
    }
    assert (events + [e])[|events|] == e;
  }

  lemma {:induction false} LogHasTheKeys(events: seq<Event>, lead: nat, key: Id)
    ensures Used(events, lead, key) <==> HasKey(LogOf(events, lead), key)
  {
    if events != [] {
      var before, e := events[..|events| - 1], events[|events| - 1];
      assert events == before + [e];
      LogHasTheKeys(before, lead, key);
      UsedAfter(before, e, lead, key);
      HasKeyAfter(LogOf(before, lead), e, key);
    }
  }

  lemma {:induction false} NoLogYet(events: seq<Event>, lead: nat)
    requires forall e :: 0 <= e < |events| ==> events[e].lead != lead
    ensures LogOf(events, lead) == []
  {
    if events != [] { NoLogYet(events[..|events| - 1], lead); }
  }

  lemma CreateKeepsSound(d: Db, o: Opening, key: Id)
    requires Sound(d)
    ensures Sound(CreateBatch(d, o, key))
  {
    var after := CreateBatch(d, o, key);
    if !TakenKey(d.leads, key) {
      NoLogYet(d.events, |d.leads|);
      forall l | 0 <= l < |after.leads| ensures Agrees(after.leads[l], LogOf(after.events, l)) {
        LogAfter(d.events, after.events[|d.events|], l);
        if l < |d.leads| { assert Agrees(d.leads[l], LogOf(d.events, l)); } else { NewLeadAgrees(o, key, l); }
      }
    }
  }

  lemma NewLeadAgrees(o: Opening, key: Id, l: nat)
    ensures Agrees(Opened(o, key), [Event(l, key, Empty, None, New, None)])
  {
  }

  /** Appending the event of an accepted change to the log of the row it changes. */
  lemma ChangeExtends(row: Lead, log: seq<Event>, l: nat, c: Change, key: Id)
    requires Agrees(row, log) && Check(row, c) == None && !HasKey(log, key)
    ensures Agrees(Changed(row, c, key), log + [EventOf(l, row, c, key)])
  {
  }

  /** The rows a client may have read are the current one, or older versions of it. */
  ghost predicate Aged(seen: Lead, row: Lead) {
    seen.version <= row.version && (seen.version == row.version ==> seen == row)
  }

  /** A commit writes exactly when the row is still the one read; then its key is new to the lead. */
  lemma CommitWritesOnlyFresh(d: Db, l: nat, seen: Lead, c: Change, key: Id)
    requires Sound(d) && l < |d.leads| && Aged(seen, d.leads[l])
    requires seen == d.leads[l] ==> !Used(d.events, l, key)
    ensures UpdateBatch(d, l, seen, c, key)
            == if seen != d.leads[l] then d
               else Db(d.leads[l := Changed(seen, c, key)], d.events + [EventOf(l, seen, c, key)])
  {
    var row, log := d.leads[l], LogOf(d.events, l);
    assert Agrees(row, log);
    LogHasTheKeys(d.events, l, key);
    if seen != row { assert log[|log| - 1].key == row.lastKey; }
    assert d.leads[l := row] == d.leads;
  }

  lemma CommitKeepsSound(d: Db, l: nat, seen: Lead, c: Change, key: Id)
    requires Sound(d) && l < |d.leads| && Aged(seen, d.leads[l]) && Check(seen, c) == None
    requires seen == d.leads[l] ==> !Used(d.events, l, key)
    ensures Sound(UpdateBatch(d, l, seen, c, key))
  {
    CommitWritesOnlyFresh(d, l, seen, c, key);
    if seen == d.leads[l] {
      var after := UpdateBatch(d, l, seen, c, key);
      LogHasTheKeys(d.events, l, key);
      assert Agrees(seen, LogOf(d.events, l));
      ChangeExtends(seen, LogOf(d.events, l), l, c, key);
      forall k | 0 <= k < |after.leads| ensures Agrees(after.leads[k], LogOf(after.events, k)) {
        LogAfter(d.events, after.events[|d.events|], k);
      }
    }
  }

  // --- Every run ----------------------------------------------------------------------------------

  /** Rows age, events stay. */
  ghost predicate Evolves(a: Db, b: Db) {
    && |a.leads| <= |b.leads| && a.events <= b.events
    && forall l :: 0 <= l < |a.leads| ==> Aged(a.leads[l], b.leads[l])
  }

  lemma AgedTrans(a: Db, b: Db, c: Db)
    requires Evolves(a, b) && Evolves(b, c)
    ensures Evolves(a, c)
  {
    forall l | 0 <= l < |a.leads| ensures Aged(a.leads[l], c.leads[l]) { assert Aged(b.leads[l], c.leads[l]); }
  }

  lemma {:induction false} LogGrows(events: seq<Event>, more: seq<Event>, l: nat)
    ensures LogOf(events, l) <= LogOf(events + more, l)
  {
    if more == [] {
      assert events + more == events;
    } else {
      LogGrows(events, more[..|more| - 1], l);
      LogAfter(events + more[..|more| - 1], more[|more| - 1], l);
      assert events + more == events + more[..|more| - 1] + [more[|more| - 1]];
    }
  }

  /** While a row stays the same its log does, so a key that was unused still is. */
  lemma UnusedStays(a: Db, b: Db, l: nat, key: Id)
    requires Sound(a) && Sound(b) && Evolves(a, b) && l < |a.leads| && a.leads[l] == b.leads[l]
    requires !Used(a.events, l, key)
    ensures !Used(b.events, l, key)
  {
    var more := b.events[|a.events|..];
    assert b.events == a.events + more;
    LogGrows(a.events, more, l);
    assert Agrees(a.leads[l], LogOf(a.events, l)) && Agrees(b.leads[l], LogOf(b.events, l));
    assert LogOf(a.events, l) == LogOf(b.events, l);
    LogHasTheKeys(a.events, l, key);
    LogHasTheKeys(b.events, l, key);
  }

  /** What holds up to state `i` of a run. */
  ghost predicate SoundUpTo(states: seq<Db>, i: nat)
    requires i < |states|
  {
    (forall k :: 0 <= k <= i ==> Sound(states[k])) && forall j, k :: 0 <= j <= k <= i ==> Evolves(states[j], states[k])
  }

  /** At its commit a client holds a version of the row; and if it is the latest, an unused key. */
  lemma ClientView(states: seq<Db>, i: nat, s: Step)
    requires i < |states| && SoundUpTo(states, i) && Enabled(states, i, s) && s.Update?
    ensures var seen := states[s.read].leads[s.lead];
            Aged(seen, states[i].leads[s.lead])
            && (seen == states[i].leads[s.lead] ==> !Used(states[i].events, s.lead, s.key))
  {
    var seen := states[s.read].leads[s.lead];
    assert Evolves(states[s.read], states[i]) && Evolves(states[s.read], states[s.looked])
           && Evolves(states[s.looked], states[i]);
    assert Aged(seen, states[s.looked].leads[s.lead]) && Aged(states[s.looked].leads[s.lead], states[i].leads[s.lead]);
    if seen == states[i].leads[s.lead] { UnusedStays(states[s.looked], states[i], s.lead, s.key); }
  }

  lemma StepKeeps(states: seq<Db>, i: nat, s: Step)
    requires i < |states| && SoundUpTo(states, i) && Enabled(states, i, s)
    ensures Sound(Apply(states, i, s)) && Evolves(states[i], Apply(states, i, s))
  {
    match s
    case Create(o, key) => CreateKeepsSound(states[i], o, key);
    case Update(l, c, key, read, looked) =>
      ClientView(states, i, s);
      CommitKeepsSound(states[i], l, states[read].leads[l], c, key);
      CommitWritesOnlyFresh(states[i], l, states[read].leads[l], c, key);
  }

  lemma NextState(states: seq<Db>, steps: seq<Step>, i: nat)
    requires IsRun(states, steps) && i < |steps| && SoundUpTo(states, i)
    ensures Sound(states[i + 1]) && Evolves(states[i], states[i + 1])
  {
    StepKeeps(states, i, steps[i]);
  }

  lemma {:induction false} RunKeeps(states: seq<Db>, steps: seq<Step>, i: nat)
    requires IsRun(states, steps) && i <= |steps|
    ensures SoundUpTo(states, i)
  {
    if i > 0 {
      RunKeeps(states, steps, i - 1);
      NextState(states, steps, i - 1);
      OneMoreState(states, i);
    }
  }

  lemma OneMoreState(states: seq<Db>, i: nat)
    requires 0 < i < |states| && SoundUpTo(states, i - 1) && Sound(states[i]) && Evolves(states[i - 1], states[i])
    ensures SoundUpTo(states, i)
  {
    forall j, k | 0 <= j <= k <= i ensures Evolves(states[j], states[k]) {
      if j < k == i { AgedTrans(states[j], states[i - 1], states[i]); }
    }
  }

  /** With any number of clients between their reads and their commits: a lead's version is the
      number of its events, its stage the last one's; the events chain from NEW through allowed moves
      and stays, never on from WON or LOST, under different keys; and requests open one lead each. */
  lemma LogTellsTheLead(states: seq<Db>, steps: seq<Step>, i: nat, l: nat)
    requires IsRun(states, steps) && i <= |steps| && l < |states[i].leads|
    ensures Agrees(states[i].leads[l], LogOf(states[i].events, l))
    ensures forall m :: 0 <= m < |states[i].leads| && states[i].leads[m].requestKey == states[i].leads[l].requestKey ==>
              m == l
  {
    RunKeeps(states, steps, i);
  }

  /** A lost race, and a key the lead has already seen, write nothing at all. */
  lemma LostRaceWritesNothing(states: seq<Db>, steps: seq<Step>, i: nat)
    requires IsRun(states, steps) && i < |steps| && steps[i].Update?
    requires states[steps[i].read].leads[steps[i].lead] != states[i].leads[steps[i].lead]
             || Used(states[i].events, steps[i].lead, steps[i].key)
    ensures states[i + 1] == states[i]
  {
    RunKeeps(states, steps, i);
    ClientView(states, i, steps[i]);
    var s := steps[i];
    CommitWritesOnlyFresh(states[i], s.lead, states[s.read].leads[s.lead], s.change, s.key);
  }

  /** The step opened a lead, or made a checked change to the current row. */
  predicate Writes(d: Db, e: Db, s: Step) {
    match s
    case Create(o, key) => !TakenKey(d.leads, key)
      && e == Db(d.leads + [Opened(o, key)], d.events + [Event(|d.leads|, key, Empty, None, New, None)])
    case Update(l, c, key, _, _) =>
      && l < |d.leads| && Check(d.leads[l], c) == None && !Used(d.events, l, key)
      && e == Db(d.leads[l := Changed(d.leads[l], c, key)], d.events + [EventOf(l, d.leads[l], c, key)])
  }

  /** A step of a run changes nothing, opens a lead, or makes a checked change to one current row. */
  lemma WhatAStepDoes(states: seq<Db>, steps: seq<Step>, i: nat)
    requires IsRun(states, steps) && i < |steps|
    ensures states[i + 1] == states[i] || Writes(states[i], states[i + 1], steps[i])
  {
    if steps[i].Update? {
      RunKeeps(states, steps, i);
      ClientView(states, i, steps[i]);
      var s := steps[i];
      CommitWritesOnlyFresh(states[i], s.lead, states[s.read].leads[s.lead], s.change, s.key);
    }
  }

  /** A lead that is WON or LOST never changes again, nor does its log. */
  lemma {:induction false} ClosedIsForever(states: seq<Db>, steps: seq<Step>, i: nat, j: nat, l: nat)
    requires IsRun(states, steps) && i <= j <= |steps| && l < |states[i].leads| && Closed(states[i].leads[l].stage)
    ensures l < |states[j].leads| && states[j].leads[l] == states[i].leads[l]
    ensures LogOf(states[j].events, l) == LogOf(states[i].events, l)
  {
    if i < j {
      ClosedIsForever(states, steps, i, j - 1, l);
      WhatAStepDoes(states, steps, j - 1);
      if states[j] != states[j - 1] { StepSparesClosed(states[j - 1], states[j], steps[j - 1], l); }
    }
  }

  lemma StepSparesClosed(d: Db, e: Db, s: Step, l: nat)
    requires l < |d.leads| && Closed(d.leads[l].stage) && Writes(d, e, s)
    ensures e.leads[l] == d.leads[l] && LogOf(e.events, l) == LogOf(d.events, l)
  {
    LogAfter(d.events, e.events[|d.events|], l);
  }

  // --- Replaying the log --------------------------------------------------------------------------

  /** One recorded change, as a reader of the log understands it. */
  function Replayed(row: Lead, e: Event): Lead {
    match e.payload
    case Empty => row
    case Recorded(stage, _, nextAction, due, _) =>
      row.(stage := stage, version := row.version + 1, lastKey := e.key,
           nextAction := if nextAction == UNCHANGED then row.nextAction else Some(nextAction),
           due := if due.Keep? then row.due else due.due)
  }

  /** The lead rebuilt from what its creation asked for and its log. */
  function Replay(row: Lead, log: seq<Event>): Lead {
    if log == [] then row else Replayed(Replay(row, log[..|log| - 1]), log[|log| - 1])
  }

  function Rebuilt(row: Lead, log: seq<Event>): Lead {
    Replay(Opened(row.opening, row.requestKey), log)
  }

  /** No request so far spelled the sentinel out. */
  predicate SentinelFree(steps: seq<Step>, n: nat)
    requires n <= |steps|
  {
    forall k :: 0 <= k < n && steps[k].Update? ==> !SpellsSentinel(steps[k].change)
  }

  lemma OpeningIsCanonical(o: Opening, key: Id)
    ensures Opened(CanonicalOpening(o), key) == Opened(o, key)
  {
    if NonEmpty(o.nextAction).Some? { TrimTwice(o.nextAction.value); }
  }

  lemma ReplayOne(row: Lead, log: seq<Event>, e: Event)
    ensures Replay(row, log + [e]) == Replayed(Replay(row, log), e)
  {
    assert (log + [e])[..|log|] == log;
  }

  /** The log gives back every column but perhaps the next action. */
  predicate NearlyReplays(d: Db, l: nat)
    requires l < |d.leads|
  {
    var again := Rebuilt(d.leads[l], LogOf(d.events, l));
    again == d.leads[l].(nextAction := again.nextAction)
  }

  predicate Replays(d: Db, l: nat)
    requires l < |d.leads|
  {
    Rebuilt(d.leads[l], LogOf(d.events, l)) == d.leads[l]
  }

  /** The log replays the lead: every column, unless some client's next action was the very text
      that the log uses for an omitted one; then every column but that. */
  lemma {:induction false} LogReplaysTheLead(states: seq<Db>, steps: seq<Step>, i: nat, l: nat)
    requires IsRun(states, steps) && i <= |steps| && l < |states[i].leads|
    ensures NearlyReplays(states[i], l) && (SentinelFree(steps, i) ==> Replays(states[i], l))
  {
    if i > 0 {
      RunKeeps(states, steps, i - 1);
      WhatAStepDoes(states, steps, i - 1);
      if l < |states[i - 1].leads| { LogReplaysTheLead(states, steps, i - 1, l); }
      StepReplays(states[i - 1], states[i], steps[i - 1], l);
    }
  }

  lemma StepReplays(d: Db, e: Db, s: Step, l: nat)
    requires Sound(d) && (e == d || Writes(d, e, s)) && l < |e.leads|
    requires l < |d.leads| ==> NearlyReplays(d, l)
    ensures NearlyReplays(e, l)
    ensures (l < |d.leads| ==> Replays(d, l)) && (s.Update? ==> !SpellsSentinel(s.change)) ==> Replays(e, l)
  {
    if e == d {
    } else if l < |d.leads| {
      EventReplays(d, e, s, l);
    } else {
      NewLeadReplays(d, e, s);
    }
  }

  /** One more event replays to one more change. */
  lemma EventReplays(d: Db, e: Db, s: Step, l: nat)
    requires l < |d.leads| && Writes(d, e, s) && NearlyReplays(d, l)
    ensures NearlyReplays(e, l)
    ensures Replays(d, l) && (s.Update? ==> !SpellsSentinel(s.change)) ==> Replays(e, l)
  {
    var x := e.events[|d.events|];
    LogAfter(d.events, x, l);
    ReplayOne(Opened(d.leads[l].opening, d.leads[l].requestKey), LogOf(d.events, l), x);
  }

  lemma NewLeadReplays(d: Db, e: Db, s: Step)
    requires Sound(d) && s.Create? && Writes(d, e, s)
    ensures Replays(e, |d.leads|)
  {
    NoLogYet(d.events, |d.leads|);
    LogAfter(d.events, e.events[|d.events|], |d.leads|);
    OpeningIsCanonical(s.opening, s.key);
    var x := e.events[|d.events|];
    ReplayOne(Opened(s.opening, s.key), [], x);
    assert [] + [x] == [x];
  }

  /** The latest update of the lead that named a next action spelled the sentinel out. */
  ghost predicate LatestSpells(states: seq<Db>, steps: seq<Step>, n: nat, l: nat)
    requires |states| == |steps| + 1 && n <= |steps|
  {
    n > 0 && if Names(states, steps, n - 1, l) then SpellsSentinel(steps[n - 1].change)
             else LatestSpells(states, steps, n - 1, l)
  }

  /** Some update of the lead named a next action other than the sentinel. */
  ghost predicate NamedOther(states: seq<Db>, steps: seq<Step>, n: nat, l: nat)
    requires |states| == |steps| + 1 && n <= |steps|
  {
    n > 0 && (NamedOther(states, steps, n - 1, l)
              || (Names(states, steps, n - 1, l) && !SpellsSentinel(steps[n - 1].change)))
  }

  /** Step `n` is an update of the lead that is written and names a next action. */
  ghost predicate Names(states: seq<Db>, steps: seq<Step>, n: nat, l: nat)
    requires |states| == |steps| + 1 && n < |steps|
  {
    steps[n].Update? && steps[n].lead == l && states[n + 1] != states[n] && steps[n].change.nextAction.Some?
  }

  predicate OpensWithSentinel(row: Lead) {
    Opened(row.opening, row.requestKey).nextAction == Some(UNCHANGED)
  }

  /** The next action a reader of the log arrives at. */
  function Heard(d: Db, l: nat): Option<string>
    requires l < |d.leads|
  {
    Rebuilt(d.leads[l], LogOf(d.events, l)).nextAction
  }

  /** What the requests so far say about the log: it replays the lead, and its reader takes the
      sentinel for the next action, exactly under these conditions. */
  ghost predicate AsNamed(states: seq<Db>, steps: seq<Step>, i: nat, l: nat)
    requires |states| == |steps| + 1 && i <= |steps| && l < |states[i].leads|
  {
    var untouched := OpensWithSentinel(states[i].leads[l]) && !NamedOther(states, steps, i, l);
    && (Replays(states[i], l) <==> !LatestSpells(states, steps, i, l) || untouched)
    && (Heard(states[i], l) == Some(UNCHANGED) <==> untouched)
  }

  lemma OldLeadAsNamed(states: seq<Db>, steps: seq<Step>, i: nat, l: nat)
    requires |states| == |steps| + 1 && i < |steps| && l < |states[i].leads| && AsNamed(states, steps, i, l)
    requires (states[i + 1] == states[i] || Writes(states[i], states[i + 1], steps[i])) && NearlyReplays(states[i], l)
    ensures l < |states[i + 1].leads| && AsNamed(states, steps, i + 1, l)
  {
    StepReplaysExactly(states[i], states[i + 1], steps[i], l);
  }

  lemma NewLeadAsNamed(states: seq<Db>, steps: seq<Step>, i: nat, l: nat)
    requires IsRun(states, steps) && i < |steps| && |states[i].leads| <= l < |states[i + 1].leads|
    requires Sound(states[i]) && Writes(states[i], states[i + 1], steps[i])
    ensures AsNamed(states, steps, i + 1, l)
  {
    OpeningIsCanonical(steps[i].opening, steps[i].key);
    NewLeadReplays(states[i], states[i + 1], steps[i]);
    NothingNamedYet(states, steps, i, l);
  }

  lemma {:induction false} EveryLeadAsNamed(states: seq<Db>, steps: seq<Step>, i: nat, l: nat)
    requires IsRun(states, steps) && i <= |steps| && l < |states[i].leads|
    ensures AsNamed(states, steps, i, l)
  {
    if i > 0 {
      WhatAStepDoes(states, steps, i - 1);
      if l < |states[i - 1].leads| {
        EveryLeadAsNamed(states, steps, i - 1, l);
        LogReplaysTheLead(states, steps, i - 1, l);
        OldLeadAsNamed(states, steps, i - 1, l);
      } else {
        SoundAt(states, steps, i - 1);
        NewLeadAsNamed(states, steps, i - 1, l);
      }
    }
  }

  lemma SoundAt(states: seq<Db>, steps: seq<Step>, i: nat)
    requires IsRun(states, steps) && i <= |steps|
    ensures Sound(states[i])
  {
    RunKeeps(states, steps, i);
  }

  /** Exactly when the log replays a lead: when the latest update that named a next action did not
      spell the sentinel, or the lead was opened with it and nothing else was named since. */
  lemma ReplaysExactlyWhen(states: seq<Db>, steps: seq<Step>, i: nat, l: nat)
    requires IsRun(states, steps) && i <= |steps| && l < |states[i].leads|
    ensures Replays(states[i], l)
            <==> (|| !LatestSpells(states, steps, i, l)
                  || (OpensWithSentinel(states[i].leads[l]) && !NamedOther(states, steps, i, l)))
  {
    EveryLeadAsNamed(states, steps, i, l);
  }

  lemma StepReplaysExactly(d: Db, e: Db, s: Step, l: nat)
    requires l < |d.leads| && (e == d || Writes(d, e, s)) && NearlyReplays(d, l)
    ensures l < |e.leads| && OpensWithSentinel(e.leads[l]) == OpensWithSentinel(d.leads[l])
    ensures var naming := s.Update? && s.lead == l && e != d && s.change.nextAction.Some?;
            && (Replays(e, l)
                <==> if naming then !SpellsSentinel(s.change) || Heard(d, l) == Some(UNCHANGED) else Replays(d, l))
            && Heard(e, l) == if naming && !SpellsSentinel(s.change) then Some(Trim(s.change.nextAction.value))
                              else Heard(d, l)
  {
    if e != d { EventReplaysExactly(d, e, s, l); }
  }

  lemma {:induction false} NothingNamedYet(states: seq<Db>, steps: seq<Step>, n: nat, l: nat)
    requires IsRun(states, steps) && n <= |steps| && l >= |states[n].leads|
    ensures !LatestSpells(states, steps, n, l) && !NamedOther(states, steps, n, l)
  {
    if n > 0 {
      RunKeeps(states, steps, n);
      assert Evolves(states[n - 1], states[n]);
      NothingNamedYet(states, steps, n - 1, l);
    }
  }

  lemma EventReplaysExactly(d: Db, e: Db, s: Step, l: nat)
    requires l < |d.leads| && Writes(d, e, s) && NearlyReplays(d, l)
    ensures l < |e.leads| && OpensWithSentinel(e.leads[l]) == OpensWithSentinel(d.leads[l])
    ensures var naming := s.Update? && s.lead == l && s.change.nextAction.Some?;
            && (Replays(e, l)
                <==> if naming then !SpellsSentinel(s.change) || Heard(d, l) == Some(UNCHANGED) else Replays(d, l))
            && Heard(e, l) == if naming && !SpellsSentinel(s.change) then Some(Trim(s.change.nextAction.value))
                              else Heard(d, l)
  {
    var x, row := e.events[|d.events|], d.leads[l];
    var start, log := Opened(row.opening, row.requestKey), LogOf(d.events, l);
    LogAfter(d.events, x, l);
    if s.Update? && s.lead == l {
      ReplayOne(start, log, x);
      ChangeReplays(row, Replay(start, log), l, s.change, s.key);
    }
  }

  /** A reader who has all of a row, but perhaps its next action, follows a change to it. */
  lemma ChangeReplays(row: Lead, again: Lead, l: nat, c: Change, key: Id)
    requires again == row.(nextAction := again.nextAction)
    ensures Replayed(again, EventOf(l, row, c, key)) == Changed(row, c, key)
            <==> if c.nextAction.Some? then !SpellsSentinel(c) || again.nextAction == Some(UNCHANGED) else again == row
  {
  }

  /** One such run: a lead whose next action is set to the sentinel itself. */
  lemma SentinelDefeatsReplay(o: Opening)
    requires 0 <= o.value <= MAX_SAFE && o.nextAction.None?
    ensures var c := Change(New, 1, Some(UNCHANGED), Keep, None);
            var s1 := CreateBatch(Db([], []), o, 0);
            var s2 := UpdateBatch(s1, 0, s1.leads[0], c, 1);
            IsRun([Db([], []), s1, s2], [Create(o, 0), Update(0, c, 1, 1, 1)]) && !Replays(s2, 0)
  {
    var c := Change(New, 1, Some(UNCHANGED), Keep, None);
    var s1 := CreateBatch(Db([], []), o, 0);
    var s2 := UpdateBatch(s1, 0, s1.leads[0], c, 1);
    var states, steps := [Db([], []), s1, s2], [Create(o, 0), Update(0, c, 1, 1, 1)];
    assert !Used(s1.events, 0, 1);
    assert IsRun(states, steps);
    ReplaysExactlyWhen(states, steps, 2, 0);
    assert SpellsSentinel(c);
    assert s2.events != s1.events;
  }

  /** Two requests the log cannot tell apart do the same to a row exactly if both or neither spell
      the sentinel out, or the row's next action is the sentinel already. */
  lemma SamePayloadSameEffect(row: Lead, a: Change, b: Change, key: Id)
    requires Canonical(a) == Canonical(b)
    ensures Changed(row, a, key) == Changed(row, b, key)
            <==> (SpellsSentinel(a) <==> SpellsSentinel(b)) || row.nextAction == Some(UNCHANGED)
  {
  }

  // --- Calls -------------------------------------------------------------------------------------

  /** The lead's event under the key records exactly this request. */
  predicate Repeats(events: seq<Event>, l: nat, c: Change, key: Id) {
    exists k :: 0 <= k < |events| && events[k].lead == l && events[k].key == key && events[k].payload == Canonical(c)
  }

  class LeadService {
    var leads: seq<Lead>
    var events: seq<Event>

    ghost function View(): Db
      reads this
    {
      Db(leads, events)
    }

    constructor ()
      ensures View() == Db([], []) && Sound(View())
    {
      leads, events := [], [];
    }

    /** create; `available` says whether a named customer belongs to the branch. */
    method Create(o: Opening, key: Id, available: bool) returns (r: Result<(nat, bool), Error>)
      requires Sound(View())
      modifies this
      ensures Sound(View())
      ensures match r
              case Ok((l, false)) =>
                && 0 <= o.value <= MAX_SAFE && available && !TakenKey(old(leads), key) && l == |old(leads)|
                && View() == CreateBatch(old(View()), o, key) && leads == old(leads) + [Opened(o, key)]
              case Ok((l, true)) =>
                View() == old(View()) && l < |leads| && leads[l].requestKey == key
                && leads[l].opening == CanonicalOpening(o)
              case Err(Invalid) => View() == old(View()) && !(0 <= o.value <= MAX_SAFE)
              case Err(Conflict) => View() == old(View())
                && exists l :: 0 <= l < |leads| && leads[l].requestKey == key && leads[l].opening != CanonicalOpening(o)
              case Err(e) => View() == old(View()) && e == Denied && !available && !TakenKey(leads, key)
    {
      if o.value < 0 || o.value > MAX_SAFE { return Err(Invalid); }
      if TakenKey(leads, key) {
        var l :| 0 <= l < |leads| && leads[l].requestKey == key;
        if leads[l].opening != CanonicalOpening(o) { return Err(Conflict); }
        return Ok((l, true));
      }
      if !available { return Err(Denied); }
      CreateKeepsSound(View(), o, key);
      var l := |leads|;
      leads := leads + [Opened(o, key)];
      events := events + [Event(l, key, Empty, None, New, None)];
      r := Ok((l, false));
    }

    /** update. */
    method Update(l: nat, c: Change, key: Id) returns (r: Result<bool, Error>)
      requires Sound(View())
      modifies this
      ensures Sound(View())
      ensures var d := old(View());
              if l >= |d.leads| then r == Err(NotFound) && View() == d
              else if Used(d.events, l, key)
              then r == (if Repeats(d.events, l, c, key) then Ok(true) else Err(Conflict)) && View() == d
              else match Check(d.leads[l], c)
                case Some(e) => r == Err(e) && View() == d
                case None =>
                  && r == Ok(false) && leads == d.leads[l := Changed(d.leads[l], c, key)]
                  && events == d.events + [EventOf(l, d.leads[l], c, key)]
    {
      if l >= |leads| { return Err(NotFound); }
      var row := leads[l];
      if Used(events, l, key) {
        if Repeats(events, l, c, key) { return Ok(true); }
        return Err(Conflict);
      }
      match Check(row, c) {
        case Some(e) => return Err(e);
        case None =>
      }
      CommitKeepsSound(View(), l, row, c, key);
      CommitWritesOnlyFresh(View(), l, row, c, key);
      leads := leads[l := Changed(row, c, key)];
      if leads[l].lastKey == key && leads[l].version == row.version + 1 {
        events := events + [EventOf(l, row, c, key)];
      }
      r := Ok(false);
    }
  }
}
