/**
 Marketing consent: the append-only consent log, the suppression rows written beside an
 opt-out, and the eligibility check that the campaign worker runs before it sends.
 */
module Consent {
  import opened Common

  datatype Channel = Email | Sms | WhatsApp | Push | Phone

  datatype Status = Granted | Denied | Withdrawn | Unknown

  predicate OptOut(s: Status) {
    s == Withdrawn || s == Denied
  }

  /** One row of customer_consents. */
  datatype Entry = Entry(id: Id, customer: Id, channel: Channel, status: Status, effectiveAt: Time, createdAt: Time)

  /** What an active suppression row covers: one channel, or every channel. */
  datatype Scope = Only(channel: Channel) | All

  datatype Suppression = Suppression(customer: Id, scope: Scope)

  /** The kind of customer identifier a channel needs. */
  datatype ContactKind = EmailAddress | OnlineAccount | PhoneNumber

  /** The CRM tables an eligibility check reads. */
  datatype Crm = Crm(active: set<Id>, consents: seq<Entry>, suppressions: set<Suppression>,
                     contacts: set<(Id, ContactKind)>)

  function KindFor(ch: Channel): ContactKind {
    match ch
    case Email => EmailAddress
    case Push => OnlineAccount
    case _ => PhoneNumber
  }

  // --- The order in which the check reads consent rows -------------------------------------

  /** The eligibility query's ORDER BY: newest effect first, an opt-out before a grant of the
      same instant, then newest row, then largest id. */
  predicate Precedes(a: Entry, b: Entry) {
    if a.effectiveAt != b.effectiveAt then a.effectiveAt > b.effectiveAt
    else if OptOut(a.status) != OptOut(b.status) then OptOut(a.status)
    else if a.createdAt != b.createdAt then a.createdAt > b.createdAt
    else a.id > b.id
  }

  predicate About(e: Entry, customer: Id, ch: Channel) {
    e.customer == customer && e.channel == ch
  }

  /** The first row of the eligibility query. */
  function Current(log: seq<Entry>, customer: Id, ch: Channel): (r: Option<Entry>)
    ensures r.Some? ==> r.value in log && About(r.value, customer, ch)
    ensures r.None? ==> forall e :: e in log ==> !About(e, customer, ch)
    ensures r.Some? ==> forall e :: e in log && About(e, customer, ch) ==> e == r.value || !Precedes(e, r.value)
  {
    if log == [] then None
    else
      var last := log[|log| - 1];
      var before := Current(log[..|log| - 1], customer, ch);
      assert log == log[..|log| - 1] + [last];
      if !About(last, customer, ch) then before
      else if before.None? || Precedes(last, before.value) then Some(last)
      else before
  }

  /** The newest effective instant recorded for a customer and channel. */
  function NewestEffect(log: seq<Entry>, customer: Id, ch: Channel): (r: Option<Time>)
    ensures r.None? <==> forall e :: e in log ==> !About(e, customer, ch)
    ensures r.Some? ==> forall e :: e in log && About(e, customer, ch) ==> e.effectiveAt <= r.value
    ensures r.Some? ==> exists e :: e in log && About(e, customer, ch) && e.effectiveAt == r.value
  {
    if log == [] then None
    else
      var last := log[|log| - 1];
      var before := NewestEffect(log[..|log| - 1], customer, ch);
      assert log == log[..|log| - 1] + [last];
      if !About(last, customer, ch) then before
      else if before.Some? && before.value >= last.effectiveAt then before
      else Some(last.effectiveAt)
  }

  // --- The eligibility check ----------------------------------------------------------------

  predicate Suppressed(crm: Crm, customer: Id, ch: Channel) {
    Suppression(customer, Only(ch)) in crm.suppressions || Suppression(customer, All) in crm.suppressions
  }

  /** The check reads four tables one after the other; read `stage` passes or stops the check. */
  const READS: nat := 4

  predicate ReadPasses(crm: Crm, customer: Id, ch: Channel, stage: nat) {
    match stage
    case 0 => customer in crm.active
    case 1 => var row := Current(crm.consents, customer, ch); row.Some? && row.value.status == Granted
    case 2 => !Suppressed(crm, customer, ch)
    case _ => (customer, KindFor(ch)) in crm.contacts
  }

  /** All four reads against one state of the tables. */
  predicate Eligible(crm: Crm, customer: Id, ch: Channel) {
    forall stage :: 0 <= stage < READS ==> ReadPasses(crm, customer, ch, stage)
  }

  /** Read by read: the customer is active, there is a consent for the channel whose most preferred row
      grants it, no suppression covers the channel, and there is an address of the kind it needs. */
  lemma EligibleExactlyWhen(crm: Crm, customer: Id, ch: Channel)
    requires forall i, j :: 0 <= i < j < |crm.consents| ==> crm.consents[i].id != crm.consents[j].id
    ensures Eligible(crm, customer, ch)
            <==> (&& customer in crm.active
                  && (exists e :: e in crm.consents && e.customer == customer && e.channel == ch && e.status == Granted
                                  && forall x :: x in crm.consents && x.customer == customer && x.channel == ch
                                                 ==> x == e || Precedes(e, x))
                  && Suppression(customer, Only(ch)) !in crm.suppressions
                  && Suppression(customer, All) !in crm.suppressions
                  && (customer, if ch == Email then EmailAddress else if ch == Push then OnlineAccount
                                else PhoneNumber) in crm.contacts)
  {
    assert Eligible(crm, customer, ch)
           <==> ReadPasses(crm, customer, ch, 0) && ReadPasses(crm, customer, ch, 1) && ReadPasses(crm, customer, ch, 2)
                && ReadPasses(crm, customer, ch, 3);
    var row := Current(crm.consents, customer, ch);
    if row.Some? {
      forall x | x in crm.consents && About(x, customer, ch) ensures x == row.value || Precedes(row.value, x) {
        if x != row.value { OneOfTwoPrecedes(crm.consents, row.value, x); }
      }
    }
  }

  /** Of two rows one comes first. */
  lemma OneOfTwoPrecedes(log: seq<Entry>, a: Entry, b: Entry)
    requires forall i, j :: 0 <= i < j < |log| ==> log[i].id != log[j].id
    requires a in log && b in log && a != b
    ensures Precedes(a, b) <==> !Precedes(b, a)
  {
    var i :| 0 <= i < |log| && log[i] == a;
    var j :| 0 <= j < |log| && log[j] == b;
    assert a.id != b.id;
  }

  /** The order in which rows are read, spelled out. */
  lemma PreferredRow(a: Entry, b: Entry)
    ensures Precedes(a, b)
            <==> (|| a.effectiveAt > b.effectiveAt
                  || (&& a.effectiveAt == b.effectiveAt
                      && (|| ((a.status == Withdrawn || a.status == Denied)
                              && b.status != Withdrawn && b.status != Denied)
                          || (&& ((a.status == Withdrawn || a.status == Denied)
                                  <==> (b.status == Withdrawn || b.status == Denied))
                              && (a.createdAt > b.createdAt || (a.createdAt == b.createdAt && a.id > b.id))))))
  {
  }

  // --- Appending consent --------------------------------------------------------------------

  datatype Append = Append(id: Id, customer: Id, channel: Channel, status: Status, effectiveAt: Option<Time>)

  /** The instant given to the new row: the caller's, or the clock pushed past the newest row. */
  function StampFor(log: seq<Entry>, a: Append, now: Time): Time {
    if a.effectiveAt.Some? then a.effectiveAt.value
    else
      var newest := NewestEffect(log, a.customer, a.channel);
      if newest.Some? then Max(now, newest.value + 1) else Max(now, 0)
  }

  /** The batch: the consent row with the instant computed before, and an opt-out's suppression. */
  function Committed(crm: Crm, a: Append, effectiveAt: Time, createdAt: Time): Crm {
    var row := Entry(a.id, a.customer, a.channel, a.status, effectiveAt, createdAt);
    crm.(consents := crm.consents + [row],
         suppressions := if OptOut(a.status)
                         then crm.suppressions + {Suppression(a.customer, Only(a.channel))}
                         else crm.suppressions)
  }

  /** The read and the batch with nothing in between. */
  function Appended(crm: Crm, a: Append, now: Time, createdAt: Time): Crm {
    Committed(crm, a, StampFor(crm.consents, a, now), createdAt)
  }

  /** What a commit leaves: the consent as it was asked for, and for a withdrawal or a denial a suppression of
      that channel. */
  lemma CommitIs(crm: Crm, a: Append, effectiveAt: Time, createdAt: Time)
    ensures var after := Committed(crm, a, effectiveAt, createdAt);
            && after.active == crm.active && after.contacts == crm.contacts
            && |after.consents| == |crm.consents| + 1 && crm.consents <= after.consents
            && var e := after.consents[|crm.consents|];
               && e.id == a.id && e.customer == a.customer && e.channel == a.channel && e.status == a.status
               && e.effectiveAt == effectiveAt && e.createdAt == createdAt
               && after.suppressions
                    == crm.suppressions + if a.status == Withdrawn || a.status == Denied
                                          then {Suppression(a.customer, Only(a.channel))} else {}
  {
  }

  /** The instant a consent is given: the caller's, or the clock, pushed behind every row of the customer and
      channel. */
  lemma StampIs(log: seq<Entry>, a: Append, now: Time)
    ensures var t := StampFor(log, a, now);
            if a.effectiveAt.Some? then t == a.effectiveAt.value
            else && t >= now && ((forall e :: e in log ==> !About(e, a.customer, a.channel)) ==> t >= 0)
                 && (forall e :: e in log && About(e, a.customer, a.channel) ==> e.effectiveAt < t)
                 && (t == now || t == 0
                     || exists e :: e in log && About(e, a.customer, a.channel) && e.effectiveAt == t - 1)
  {
  }

  /** Everything the rest of the program may do to these tables: rows are appended, a suppression
      is never released, customers and identifiers change freely. */
  predicate Evolves(before: Crm, after: Crm) {
    && before.consents <= after.consents
    && before.suppressions <= after.suppressions
  }

  lemma AppendEvolves(crm: Crm, a: Append, now: Time, createdAt: Time)
    ensures Evolves(crm, Appended(crm, a, now, createdAt))
  {
  }

  /** A consent recorded without an explicit date is the row the check reads, even when the clock
      stands behind the newest row; so the check's second read then follows its status. */
  lemma UndatedConsentWins(crm: Crm, a: Append, now: Time, createdAt: Time)
    requires a.effectiveAt.None?
    ensures var after := Appended(crm, a, now, createdAt);
            && Current(after.consents, a.customer, a.channel) == Some(after.consents[|crm.consents|])
            && (ReadPasses(after, a.customer, a.channel, 1) <==> a.status == Granted)
  {
    var after := Appended(crm, a, now, createdAt);
    assert after.consents[..|crm.consents|] == crm.consents;
  }

  /** A committed consent, whatever its instant, is the row the check reads exactly when no recorded
      row of that customer and channel takes precedence over it. */
  lemma CommittedWins(crm: Crm, a: Append, effectiveAt: Time, createdAt: Time)
    requires forall e :: e in crm.consents ==> e.id != a.id
    ensures var after := Committed(crm, a, effectiveAt, createdAt);
            var row := after.consents[|crm.consents|];
            Current(after.consents, a.customer, a.channel) == Some(row)
            <==> forall e :: e in crm.consents && About(e, a.customer, a.channel) ==> Precedes(row, e)
  {
    var after := Committed(crm, a, effectiveAt, createdAt);
    var row := after.consents[|crm.consents|];
    assert after.consents[..|crm.consents|] == crm.consents;
    var before := Current(crm.consents, a.customer, a.channel);
    if before.Some? && Precedes(row, before.value) {
      forall e | e in crm.consents && About(e, a.customer, a.channel) ensures Precedes(row, e) {
        assert !Precedes(e, before.value);
      }
    }
  }

  /** An explicitly dated consent keeps its date, and is the current row exactly when nothing
      recorded takes precedence over it. */
  lemma DatedConsentWins(crm: Crm, a: Append, now: Time, createdAt: Time)
    requires a.effectiveAt.Some?
    requires forall e :: e in crm.consents ==> e.id != a.id
    ensures var after := Appended(crm, a, now, createdAt);
            var row := after.consents[|crm.consents|];
            && row.effectiveAt == a.effectiveAt.value
            && (Current(after.consents, a.customer, a.channel) == Some(row)
                <==> forall e :: e in crm.consents && About(e, a.customer, a.channel) ==> Precedes(row, e))
  {
    CommittedWins(crm, a, a.effectiveAt.value, createdAt);
  }

  /** The read and the batch are two statements. A consent without a date whose newest row was read
      from an older log is the current row exactly when it precedes every row that came in between. */
  lemma RacedConsentWins(read: seq<Entry>, crm: Crm, a: Append, now: Time, createdAt: Time)
    requires a.effectiveAt.None? && read <= crm.consents
    requires forall e :: e in crm.consents ==> e.id != a.id
    ensures var after := Committed(crm, a, StampFor(read, a, now), createdAt);
            var row := after.consents[|crm.consents|];
            Current(after.consents, a.customer, a.channel) == Some(row)
            <==> forall e :: e in crm.consents[|read|..] && About(e, a.customer, a.channel) ==> Precedes(row, e)
  {
    var row := Entry(a.id, a.customer, a.channel, a.status, StampFor(read, a, now), createdAt);
    CommittedWins(crm, a, StampFor(read, a, now), createdAt);
    assert crm.consents == read + crm.consents[|read|..];
    forall e | e in read && About(e, a.customer, a.channel) ensures Precedes(row, e) {
      assert e.effectiveAt <= NewestEffect(read, a.customer, a.channel).value;
    }
  }

  /** Once an opt-out is committed, with whatever instant, no later state of the tables is eligible;
      the third read alone stops the check. */
  lemma OptOutIsPermanent(crm: Crm, a: Append, effectiveAt: Time, createdAt: Time, later: Crm)
    requires OptOut(a.status)
    requires Evolves(Committed(crm, a, effectiveAt, createdAt), later)
    ensures !ReadPasses(later, a.customer, a.channel, 2)
    ensures !Eligible(later, a.customer, a.channel)
  {
    assert Suppression(a.customer, Only(a.channel)) in later.suppressions;
    assert !ReadPasses(later, a.customer, a.channel, 2);
  }

  /** A row of customer_journey_events that a consent change leaves. */
  datatype Event = ConsentChanged(customer: Id, consent: Id, channel: Channel, status: Status, at: Time)

  datatype Error = NotFound

  /** The consent service: appendConsent over its tables. `canonical` lists every customer with the one
      it was merged into, or itself. */
  class ConsentService {
    var canonical: map<Id, Id>
    var active: set<Id>
    var consents: seq<Entry>
    var suppressions: set<Suppression>
    var contacts: set<(Id, ContactKind)>
    var journey: seq<Event>

    ghost function View(): Crm
      reads this
    {
      Crm(active, consents, suppressions, contacts)
    }

    constructor (canonical: map<Id, Id>, active: set<Id>, contacts: set<(Id, ContactKind)>)
      ensures this.canonical == canonical && View() == Crm(active, [], {}, contacts) && journey == []
    {
      this.canonical, this.active, this.contacts := canonical, active, contacts;
      consents, suppressions, journey := [], {}, [];
    }

    /** Reads the newest effective instant of the canonical customer, then commits the consent row, the
        suppression row of an opt-out and the journey row together. */
    method AppendConsent(a: Append, now: Time, createdAt: Time) returns (r: Result<Time, Error>)
      modifies this`consents, this`suppressions, this`journey
      ensures r.Err? <==> a.customer !in canonical
      ensures r.Err? ==> View() == old(View()) && journey == old(journey)
      ensures r.Ok? ==>
                var own := a.(customer := canonical[a.customer]);
                && View() == Appended(old(View()), own, now, createdAt) && Evolves(old(View()), View())
                && r.value == StampFor(old(consents), own, now)
                && journey == old(journey) + [ConsentChanged(own.customer, a.id, a.channel, a.status, r.value)]
    {
      if a.customer !in canonical { return Err(NotFound); }
      var customer := canonical[a.customer];
      AppendEvolves(View(), a.(customer := customer), now, createdAt);
      var effectiveAt;
      if a.effectiveAt.Some? {
        effectiveAt := a.effectiveAt.value;
      } else {
        var latest := NewestEffect(consents, customer, a.channel);
        effectiveAt := Max(now, if latest.Some? then latest.value + 1 else 0);
      }
      consents := consents + [Entry(a.id, customer, a.channel, a.status, effectiveAt, createdAt)];
      if OptOut(a.status) {
        suppressions := suppressions + {Suppression(customer, Only(a.channel))};
      }
      journey := journey + [ConsentChanged(customer, a.id, a.channel, a.status, effectiveAt)];
      r := Ok(effectiveAt);
    }
  }
}
