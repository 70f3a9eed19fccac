/**
 Vouchers: validation reads first, then one guarded insert redeems. Any number of clients may sit
 between the two, and refunds write REVERSED rows next to the CONFIRMED ones.
 */
module Vouchers {
  import opened Common

  // --- Tables ---------------------------------------------------------------------------------

  datatype Discount = FixedMinor | PercentBps | FreeItem | NonFinancial

  /** The status of a definition: DRAFT, ACTIVE, PAUSED, EXPIRED or CANCELLED. */
  datatype Standing = Draft | InForce | Paused | Ended | Cancelled

  /** One row of voucher_definitions. Only `standing` ever changes. */
  datatype Definition = Definition(
    standing: Standing, validFrom: Time, validTo: Option<Time>,
    branches: set<Id>, channels: set<Id>, items: set<Id>, categories: set<Id>,
    minimum: int, currency: Option<Id>, discount: Discount, value: nat,
    usageCap: Option<nat>, perCustomerCap: Option<nat>, customerSpecific: bool, singleUse: bool, restorable: bool)

  datatype IssueStatus = Active | Redeemed | Expired

  /** One row of voucher_issues, identified by its place. Only `status` ever changes. */
  datatype Issue = Issue(definition: nat, customer: Option<Id>, status: IssueStatus, expires: Option<Time>)

  /** One row of voucher_redemptions, identified by its place. */
  datatype Redemption = Redemption(
    definition: nat, issue: Option<nat>, customer: Option<Id>, order: Id, discount: int, confirmed: bool,
      source: Option<nat>, key: Id)

  datatype Desk = Desk(definitions: seq<Definition>, issues: seq<Issue>, rows: seq<Redemption>)

  /** Issues point at definitions, as the foreign key demands. */
  ghost predicate Linked(d: Desk) {
    forall i :: 0 <= i < |d.issues| ==> d.issues[i].definition < |d.definitions|
  }

  // --- Counting rows ------------------------------------------------------------------------------

  datatype Group = OfDefinition(definition: nat) | OfCustomer(definition: nat, customer: Id) | OfIssue(issue: nat)

  predicate In(g: Group, r: Redemption) {
    match g
    case OfDefinition(d) => r.definition == d
    case OfCustomer(d, c) => r.definition == d && r.customer == Some(c)
    case OfIssue(i) => r.issue == Some(i)
  }

  /** COUNT(*) of CONFIRMED rows: what the insert guard looks at. */
  function Confirmed(rows: seq<Redemption>, g: Group): nat {
    if rows == [] then 0
    else Confirmed(rows[..|rows| - 1], g) + if In(g, rows[|rows| - 1]) && rows[|rows| - 1].confirmed then 1 else 0
  }

  /** CONFIRMED minus REVERSED rows of a definition: what validation looks at. */
  function Usage(rows: seq<Redemption>, d: nat, g: Group): int {
    if rows == [] then 0
    else
      var r := rows[|rows| - 1];
      Usage(rows[..|rows| - 1], d, g) + if r.definition == d && In(g, r) then (if r.confirmed then 1 else -1) else 0
  }

  predicate Used(rows: seq<Redemption>, key: Id) {
    exists i :: 0 <= i < |rows| && rows[i].key == key
  }

  // --- Validation ---------------------------------------------------------------------------------

  /** A public code names a definition, a personal one an issue. */
  datatype Code = Public(definition: nat) | Personal(issue: nat)

  datatype Line = Line(item: Option<Id>, category: Option<Id>, subtotal: int)

  datatype Order = Order(id: Id, customer: Option<Id>, branch: Id, channel: Id, subtotal: int,
                         eligibleSubtotal: Option<nat>, currency: Id)

  datatype Error = Invalid | NotFound | NotEligible | Conflict

  datatype Offer = Offer(definition: nat, issue: Option<nat>, discount: int)

  /** resolveVoucher. */
  function Resolve(d: Desk, code: Code): Option<(nat, Option<nat>)> {
    match code
    case Public(n) => if n < |d.definitions| then Some((n, None)) else None
    case Personal(i) => if i < |d.issues| then Some((d.issues[i].definition, Some(i))) else None
  }

  function EligibleLines(lines: seq<Line>, v: Definition): int {
    if lines == [] then 0
    else
      var l := lines[|lines| - 1];
      EligibleLines(lines[..|lines| - 1], v)
      + if (l.item.Some? && l.item.value in v.items) || (l.category.Some? && l.category.value in v.categories)
        then l.subtotal else 0
  }

  /** The amount a percentage or a free item is taken from. */
  function Basis(v: Definition, o: Order, lines: Option<seq<Line>>): Result<int, Error> {
    if v.items != {} || v.categories != {} then
      if lines.None? then Err(NotEligible)
      else if exists k :: 0 <= k < |lines.value| && lines.value[k].subtotal < 0 then Err(Invalid)
      else if EligibleLines(lines.value, v) <= 0 then Err(NotEligible)
      else Ok(EligibleLines(lines.value, v))
    else if o.eligibleSubtotal.Some? then Ok(Min(o.eligibleSubtotal.value, o.subtotal))
    else Ok(o.subtotal)
  }

  function DiscountOf(v: Definition, basis: int, subtotal: int): int {
    match v.discount
    case FixedMinor => Min(v.value, subtotal)
    case PercentBps => Min(basis * v.value / 10_000, subtotal)
    case FreeItem => Min(basis, subtotal)
    case NonFinancial => 0
  }

  predicate CapReached(cap: Option<nat>, usage: int) {
    cap.Some? && cap.value != 0 && usage >= cap.value
  }

  /** The checks of validateVoucher on the voucher itself, in the order the code makes them. */
  predicate Suits(v: Definition, issue: Option<Issue>, o: Order, now: Time) {
    && v.validFrom <= now && (v.validTo.Some? ==> now < v.validTo.value)
    && (issue.Some? ==> issue.value.status == Active && (issue.value.expires.Some? ==> now < issue.value.expires.value))
    && (v.branches != {} ==> o.branch in v.branches)
    && (v.channels != {} ==> o.channel in v.channels)
    && (v.currency.Some? ==> v.currency.value == o.currency)
    && v.minimum <= o.subtotal
    && (v.customerSpecific ==> o.customer.Some? && issue.Some? && issue.value.customer == o.customer)
  }

  predicate HasUses(rows: seq<Redemption>, v: Definition, n: nat, issue: Option<nat>, customer: Option<Id>) {
    && !CapReached(v.usageCap, Usage(rows, n, OfDefinition(n)))
    && (customer.Some? ==> !CapReached(v.perCustomerCap, Usage(rows, n, OfCustomer(n, customer.value))))
    && (v.singleUse && issue.Some? ==> Usage(rows, n, OfIssue(issue.value)) <= 0)
  }

  /** validateVoucher. */
  function Validate(d: Desk, code: Code, o: Order, lines: Option<seq<Line>>, now: Time): Result<Offer, Error>
    requires Linked(d)
  {
    if o.subtotal < 0 then Err(Invalid)
    else if Resolve(d, code).None? || d.definitions[Resolve(d, code).value.0].standing != InForce then Err(NotFound)
    else
      var (n, issue) := Resolve(d, code).value;
      var v := d.definitions[n];
      if !Suits(v, if issue.Some? then Some(d.issues[issue.value]) else None, o, now) then Err(NotEligible)
      else if !HasUses(d.rows, v, n, issue, o.customer) then Err(NotEligible)
      else match Basis(v, o, lines)
        case Err(e) => Err(e)
        case Ok(basis) => Ok(Offer(n, issue, DiscountOf(v, basis, o.subtotal)))
  }

  /** An offered discount never exceeds the order, even when line totals or the percentage do. */
  lemma DiscountFits(d: Desk, code: Code, o: Order, lines: Option<seq<Line>>, now: Time)
    requires Linked(d) && Validate(d, code, o, lines, now).Ok?
    ensures 0 <= Validate(d, code, o, lines, now).value.discount <= o.subtotal
  {
    var (n, issue) := Resolve(d, code).value;
    var v := d.definitions[n];
    var basis := Basis(v, o, lines).value;
    assert basis * v.value >= 0;
  }

  // --- What validation comes to -------------------------------------------------------------------

  /** COUNT(*) of REVERSED rows of a definition. */
  function Reversals(rows: seq<Redemption>, d: nat, g: Group): nat {
    if rows == [] then 0
    else
      var r := rows[|rows| - 1];
      Reversals(rows[..|rows| - 1], d, g) + if r.definition == d && In(g, r) && !r.confirmed then 1 else 0
  }

  lemma {:induction false} UsageIsNet(rows: seq<Redemption>, n: nat, g: Group)
    requires forall r :: 0 <= r < |rows| && In(g, rows[r]) ==> rows[r].definition == n
    ensures Usage(rows, n, g) == Confirmed(rows, g) - Reversals(rows, n, g)
  {
    if rows != [] { UsageIsNet(rows[..|rows| - 1], n, g); }
  }

  ghost function ConfirmedRows(rows: seq<Redemption>, g: Group): set<int> {
    set i | 0 <= i < |rows| && In(g, rows[i]) && rows[i].confirmed
  }

  ghost function ReversedRows(rows: seq<Redemption>, n: nat, g: Group): set<int> {
    set i | 0 <= i < |rows| && rows[i].definition == n && In(g, rows[i]) && !rows[i].confirmed
  }

  /** The counts are the numbers of rows they stand for. */
  lemma {:induction false} ConfirmedCountsRows(rows: seq<Redemption>, g: Group)
    ensures Confirmed(rows, g) == |ConfirmedRows(rows, g)|
  {
    if rows != [] {
      var k := |rows| - 1;
      ConfirmedCountsRows(rows[..k], g);
      assert ConfirmedRows(rows, g)
             == ConfirmedRows(rows[..k], g) + if In(g, rows[k]) && rows[k].confirmed then {k} else {};
    }
  }

  lemma {:induction false} ReversalsCountRows(rows: seq<Redemption>, n: nat, g: Group)
    ensures Reversals(rows, n, g) == |ReversedRows(rows, n, g)|
  {
    if rows != [] {
      var k := |rows| - 1;
      ReversalsCountRows(rows[..k], n, g);
      var before := ReversedRows(rows[..k], n, g);
      if rows[k].definition == n && In(g, rows[k]) && !rows[k].confirmed {
        assert ReversedRows(rows, n, g) == before + {k};
      } else {
        assert ReversedRows(rows, n, g) == before;
      }
    }
  }

  /** Which rows a group holds. */
  lemma GroupsAre(r: Redemption, n: nat, c: Id, i: nat)
    ensures In(OfDefinition(n), r) <==> r.definition == n
    ensures In(OfCustomer(n, c), r) <==> r.definition == n && r.customer.Some? && r.customer.value == c
    ensures In(OfIssue(i), r) <==> r.issue.Some? && r.issue.value == i
  {
  }

  /** The value of a line counts when the voucher names its item or its category. */
  lemma EligibleLinesAre(lines: seq<Line>, v: Definition, l: Line)
    ensures EligibleLines(lines + [l], v)
            == EligibleLines(lines, v)
               + if (l.item.Some? && l.item.value in v.items) || (l.category.Some? && l.category.value in v.categories)
                 then l.subtotal else 0
    ensures EligibleLines([], v) == 0
  {
    assert (lines + [l])[..|lines|] == lines;
  }

  /** What a discount is taken from: the lines the voucher is scoped to, or what the caller says is
      eligible, or the whole order. */
  predicate TakenFrom(v: Definition, o: Order, lines: Option<seq<Line>>, basis: int) {
    if v.items != {} || v.categories != {} then lines.Some? && basis == EligibleLines(lines.value, v)
    else if o.eligibleSubtotal.None? then basis == o.subtotal
    else basis == if o.eligibleSubtotal.value < o.subtotal then o.eligibleSubtotal.value else o.subtotal
  }

  /** The discount offered: a fixed amount, whole minor units of a percentage in hundredths of a percent, or
      all of the basis, and never more than the order; a non-financial voucher gives none. */
  lemma DiscountIs(v: Definition, basis: int, subtotal: int)
    requires basis >= 0 && subtotal >= 0
    ensures var got := DiscountOf(v, basis, subtotal);
            match v.discount
            case FixedMinor => got == if v.value < subtotal then v.value else subtotal
            case PercentBps => got <= subtotal && got * 10000 <= basis * v.value
                               && (got < subtotal ==> basis * v.value < (got + 1) * 10000)
            case FreeItem => got == if basis < subtotal then basis else subtotal
            case NonFinancial => got == 0
  {
    assert basis * v.value >= 0;
  }

  /** A cap of zero counts as none for validation. */
  predicate Room(cap: Option<nat>, used: int) {
    cap.Some? && cap.value > 0 ==> used < cap.value
  }

  /** Everything validation asks of a voucher, column by column. */
  predicate Valid(d: Desk, n: nat, issue: Option<nat>, o: Order, now: Time)
    requires n < |d.definitions| && (issue.Some? ==> issue.value < |d.issues|)
  {
    var v := d.definitions[n];
    && o.subtotal >= 0 && v.standing == InForce
    && v.validFrom <= now && (v.validTo.Some? ==> now < v.validTo.value)
    && (issue.Some? ==> d.issues[issue.value].status == Active
                        && (d.issues[issue.value].expires.Some? ==> now < d.issues[issue.value].expires.value))
    && (v.branches == {} || o.branch in v.branches) && (v.channels == {} || o.channel in v.channels)
    && (v.currency.Some? ==> o.currency == v.currency.value) && o.subtotal >= v.minimum
    && (v.customerSpecific ==>
          issue.Some? && o.customer.Some? && d.issues[issue.value].customer == Some(o.customer.value))
    && Room(v.usageCap, Usage(d.rows, n, OfDefinition(n)))
    && (o.customer.Some? ==> Room(v.perCustomerCap, Usage(d.rows, n, OfCustomer(n, o.customer.value))))
    && (v.singleUse && issue.Some? ==> Usage(d.rows, n, OfIssue(issue.value)) <= 0)
  }

  /** A scoped voucher needs lines, none of them negative, and something on them that it is for. */
  predicate Usable(v: Definition, lines: Option<seq<Line>>) {
    v.items != {} || v.categories != {} ==>
      lines.Some? && (forall k :: 0 <= k < |lines.value| ==> lines.value[k].subtotal >= 0)
      && EligibleLines(lines.value, v) > 0
  }

  /** An offer is made exactly for a voucher that exists, is valid for the order and usable on its lines;
      its discount is taken from the basis. */
  lemma OfferedExactlyWhen(d: Desk, code: Code, o: Order, lines: Option<seq<Line>>, now: Time)
    requires Linked(d)
    ensures var found := if code.Public? then code.definition < |d.definitions| else code.issue < |d.issues|;
            var n := if code.Public? then code.definition else if found then d.issues[code.issue].definition else 0;
            var issue := if code.Public? then None else Some(code.issue);
            var r := Validate(d, code, o, lines, now);
            && (r.Ok? <==> found && Valid(d, n, issue, o, now) && Usable(d.definitions[n], lines))
            && (r.Ok? ==> r.value.definition == n && r.value.issue == issue
                          && exists basis :: TakenFrom(d.definitions[n], o, lines, basis)
                                             && r.value.discount == DiscountOf(d.definitions[n], basis, o.subtotal))
  {
    if Validate(d, code, o, lines, now).Ok? {
      var (n, issue) := Resolve(d, code).value;
      assert TakenFrom(d.definitions[n], o, lines, Basis(d.definitions[n], o, lines).value);
    }
  }

  // --- The atomic steps -------------------------------------------------------------------------

  datatype Step =
    | Define(definition: Definition)
    | Hand(issue: Issue)
    | RedeemBatch(at: nat, code: Code, order: Order, now: Time, key: Id)
    | MarkRedeemed(voucher: nat, row: nat)
    | ReverseInsert(row: nat, key: Id)
    | Restore(voucher: nat)
    | Expire(asOf: Time)

  /** The guard of the redemption insert, with caps read from columns that never change. */
  predicate Free(rows: seq<Redemption>, v: Definition, n: nat, issue: Option<nat>, customer: Option<Id>) {
    && (v.usageCap.Some? ==> Confirmed(rows, OfDefinition(n)) < v.usageCap.value)
    && (v.perCustomerCap.Some? && customer.Some?
        ==> Confirmed(rows, OfCustomer(n, customer.value)) < v.perCustomerCap.value)
    && (issue.Some? ==> Confirmed(rows, OfIssue(issue.value)) == 0)
  }

  predicate IsFree(d: Desk, offer: Offer, customer: Option<Id>)
    requires offer.definition < |d.definitions|
  {
    Free(d.rows, d.definitions[offer.definition], offer.definition, offer.issue, customer)
  }

  /** The insert of redeemVoucher for an offer made earlier. */
  function Redeem(d: Desk, offer: Offer, o: Order, key: Id): Desk
    requires offer.definition < |d.definitions|
  {
    if Free(d.rows, d.definitions[offer.definition], offer.definition, offer.issue, o.customer) && !Used(d.rows, key)
    then d.(rows := d.rows
            + [Redemption(offer.definition, offer.issue, o.customer, o.id, offer.discount, true, None, key)])
    else d
  }

  /** UNIQUE (voucher_issue_id, order_id, status), which a missing issue never violates. */
  predicate Collides(rows: seq<Redemption>, issue: Option<nat>, order: Id, confirmed: bool) {
    issue.Some?
    && exists i :: 0 <= i < |rows| && rows[i].issue == issue && rows[i].order == order && rows[i].confirmed == confirmed
  }

  /** The insert of reverseVoucherRedemption. */
  function Reverse(d: Desk, row: nat, key: Id): Desk
    requires row < |d.rows|
  {
    var r := d.rows[row];
    if Used(d.rows, key) || Collides(d.rows, r.issue, r.order, false) then d
    else d.(rows := d.rows + [r.(confirmed := false, source := Some(row), key := key)])
  }

  function WithStatus(d: Desk, i: nat, s: IssueStatus): Desk
    requires i < |d.issues|
  {
    d.(issues := d.issues[i := d.issues[i].(status := s)])
  }

  function ExpiredDefinition(v: Definition, asOf: Time): Definition {
    if v.standing == InForce && v.validTo.Some? && v.validTo.value <= asOf then v.(standing := Ended) else v
  }

  function ExpiredIssue(i: Issue, definitions: seq<Definition>, asOf: Time): Issue {
    if i.status == Active
      && ((i.expires.Some? && i.expires.value <= asOf)
          || (i.definition < |definitions| && definitions[i.definition].standing == Ended))
    then i.(status := Expired) else i
  }

  /** expireVouchers. */
  function ExpireAll(d: Desk, asOf: Time): Desk {
    var definitions := seq(|d.definitions|,
                           i requires 0 <= i < |d.definitions| => ExpiredDefinition(d.definitions[i], asOf));
    Desk(definitions, seq(|d.issues|, i requires 0 <= i < |d.issues| => ExpiredIssue(d.issues[i], definitions, asOf)),
         d.rows)
  }

  /** What the caller read before its commit: a redemption rests on an offer validated, without
      order lines, in some earlier state `states[at]`. */
  ghost predicate Enabled(states: seq<Desk>, i: nat, s: Step)
    requires i < |states|
  {
    var d := states[i];
    match s
    case Define(_) => true
    case Hand(issue) => issue.definition < |d.definitions|
    case RedeemBatch(at, code, o, now, _) =>
      && at <= i && Linked(states[at])
      && var offer := Validate(states[at], code, o, None, now); offer.Ok? && offer.value.definition < |d.definitions|
    case MarkRedeemed(v, row) => v < |d.issues| && row < |d.rows| && d.rows[row].confirmed
    case ReverseInsert(row, _) => row < |d.rows| && d.rows[row].confirmed && d.rows[row].definition < |d.definitions|
                                  && d.definitions[d.rows[row].definition].restorable
    case Restore(v) => v < |d.issues|
    case Expire(_) => true
  }

  ghost function Apply(states: seq<Desk>, i: nat, s: Step): Desk
    requires i < |states| && Enabled(states, i, s)
  {
    var d := states[i];
    match s
    case Define(v) => d.(definitions := d.definitions + [v])
    case Hand(issue) => d.(issues := d.issues + [issue])
    case RedeemBatch(at, code, o, now, key) => Redeem(d, Validate(states[at], code, o, None, now).value, o, key)
    case MarkRedeemed(v, _) => WithStatus(d, v, Redeemed)
    case ReverseInsert(row, key) => Reverse(d, row, key)
    case Restore(v) => if d.issues[v].status == Redeemed then WithStatus(d, v, Active) else d
    case Expire(asOf) => ExpireAll(d, asOf)
  }

  // --- What the statements come to ------------------------------------------------------------------

  /** A reversal is a copy of its redemption that points back at it, under a new key, and at most one for
      each order of an issue. */
  lemma ReversalIs(d: Desk, row: nat, key: Id)
    requires row < |d.rows|
    ensures var r := d.rows[row];
            var blocked := (exists i :: 0 <= i < |d.rows| && d.rows[i].key == key)
              || (r.issue.Some? && exists i :: 0 <= i < |d.rows| && d.rows[i].issue == r.issue
                                               && d.rows[i].order == r.order && !d.rows[i].confirmed);
            Reverse(d, row, key)
            == if blocked then d
               else d.(rows := d.rows + [Redemption(r.definition, r.issue, r.customer, r.order, r.discount, false,
                                                    Some(row), key)])
  {
  }

  /** A redemption records the offer for the order, if confirmed rows leave room under the caps, its issue
      has none, and the key is new. */
  lemma RedemptionIs(d: Desk, offer: Offer, o: Order, key: Id)
    requires offer.definition < |d.definitions|
    ensures var v := d.definitions[offer.definition]; var n := offer.definition;
            var open := && (v.usageCap.Some? ==> |ConfirmedRows(d.rows, OfDefinition(n))| < v.usageCap.value)
                        && (v.perCustomerCap.Some? && o.customer.Some?
                            ==> |ConfirmedRows(d.rows, OfCustomer(n, o.customer.value))| < v.perCustomerCap.value)
                        && (offer.issue.Some? ==> |ConfirmedRows(d.rows, OfIssue(offer.issue.value))| == 0)
                        && (forall i :: 0 <= i < |d.rows| ==> d.rows[i].key != key);
            Redeem(d, offer, o, key)
            == if !open then d
               else d.(rows := d.rows + [Redemption(n, offer.issue, o.customer, o.id, offer.discount, true, None, key)])
  {
    var n := offer.definition;
    ConfirmedCountsRows(d.rows, OfDefinition(n));
    if o.customer.Some? { ConfirmedCountsRows(d.rows, OfCustomer(n, o.customer.value)); }
    if offer.issue.Some? { ConfirmedCountsRows(d.rows, OfIssue(offer.issue.value)); }
  }

  /** The expiry worker ends ACTIVE definitions at or after their end, and ACTIVE issues at or after theirs
      or of a definition that is EXPIRED by now; nothing else changes. */
  lemma ExpiryIs(d: Desk, asOf: Time, n: nat, i: nat)
    ensures var after := ExpireAll(d, asOf);
            && after.rows == d.rows && |after.definitions| == |d.definitions| && |after.issues| == |d.issues|
            && (n < |d.definitions| ==>
                  var v := d.definitions[n];
                  after.definitions[n]
                  == v.(standing := if v.standing == InForce && v.validTo.Some? && v.validTo.value <= asOf then Ended
                                    else v.standing))
            && (i < |d.issues| ==>
                  var x := d.issues[i];
                  var over := (x.expires.Some? && x.expires.value <= asOf)
                    || (x.definition < |d.definitions| && after.definitions[x.definition].standing == Ended);
                  after.issues[i] == x.(status := if x.status == Active && over then Expired else x.status))
  {
  }

  // --- Invariants -------------------------------------------------------------------------------

  /** Columns of older definitions and issues that the protocol relies on never change. */
  ghost predicate Evolves(a: Desk, b: Desk) {
    && |a.definitions| <= |b.definitions| && |a.issues| <= |b.issues| && a.rows <= b.rows
    && (forall n :: 0 <= n < |a.definitions| ==>
          b.definitions[n].(standing := InForce) == a.definitions[n].(standing := InForce))
    && (forall i :: 0 <= i < |a.issues| ==> b.issues[i].(status := Active) == a.issues[i].(status := Active))
  }

  predicate Bound(d: Desk, r: Redemption) {
    r.definition < |d.definitions|
    && (r.issue.Some? ==> r.issue.value < |d.issues| && d.issues[r.issue.value].definition == r.definition)
  }

  ghost predicate Sound(d: Desk) {
    && Linked(d)
    && (forall r :: 0 <= r < |d.rows| ==> Bound(d, d.rows[r]))
    && (forall i, j :: 0 <= i < j < |d.rows| ==> d.rows[i].key != d.rows[j].key)
    && (forall n :: 0 <= n < |d.definitions| && d.definitions[n].usageCap.Some? ==>
          Confirmed(d.rows, OfDefinition(n)) <= d.definitions[n].usageCap.value)
    && (forall n, c: Id :: 0 <= n < |d.definitions| && d.definitions[n].perCustomerCap.Some? ==>
          Confirmed(d.rows, OfCustomer(n, c)) <= d.definitions[n].perCustomerCap.value)
    && (forall i: nat :: Confirmed(d.rows, OfIssue(i)) <= 1)
  }

  ghost predicate IsRun(states: seq<Desk>, steps: seq<Step>) {
    && |states| == |steps| + 1 && states[0] == Desk([], [], [])
    && forall i {:trigger steps[i]} :: 0 <= i < |steps| ==>
         Enabled(states, i, steps[i]) && states[i + 1] == Apply(states, i, steps[i])
  }

  lemma OneMoreRow(rows: seq<Redemption>, r: Redemption, d: nat, g: Group)
    ensures Confirmed(rows + [r], g) == Confirmed(rows, g) + if In(g, r) && r.confirmed then 1 else 0
    ensures Usage(rows + [r], d, g)
            == Usage(rows, d, g) + if r.definition == d && In(g, r) then (if r.confirmed then 1 else -1) else 0
  {
    assert (rows + [r])[..|rows|] == rows;
  }

  lemma {:induction false} NoRowsOfUnknown(rows: seq<Redemption>, n: nat, g: Group)
    requires forall r :: 0 <= r < |rows| ==> rows[r].definition < n
    requires !g.OfIssue? && g.definition >= n
    ensures Confirmed(rows, g) == 0
  {
    if rows != [] { NoRowsOfUnknown(rows[..|rows| - 1], n, g); }
  }

  lemma StepEvolves(states: seq<Desk>, i: nat, s: Step)
    requires i < |states| && Enabled(states, i, s)
    ensures Evolves(states[i], Apply(states, i, s))
  {
  }

  lemma RowKeepsSound(d: Desk, r: Redemption)
    requires Sound(d) && Bound(d, r) && !Used(d.rows, r.key)
    requires r.confirmed ==> Free(d.rows, d.definitions[r.definition], r.definition, r.issue, r.customer)
    ensures Sound(d.(rows := d.rows + [r]))
  {
    forall g: Group
      ensures Confirmed(d.rows + [r], g) == Confirmed(d.rows, g) + if In(g, r) && r.confirmed then 1 else 0
    {
      OneMoreRow(d.rows, r, 0, g);
    }
  }

  lemma TableKeepsSound(d: Desk, e: Desk)
    requires Sound(d) && Evolves(d, e) && e.rows == d.rows && Linked(e)
    ensures Sound(e)
  {
    forall n | 0 <= n < |e.definitions| && e.definitions[n].usageCap.Some?
      ensures Confirmed(e.rows, OfDefinition(n)) <= e.definitions[n].usageCap.value
    {
      if n >= |d.definitions| { NoRowsOfUnknown(d.rows, |d.definitions|, OfDefinition(n)); }
      else { assert e.definitions[n].(standing := InForce) == d.definitions[n].(standing := InForce); }
    }
    forall n, c: Id | 0 <= n < |e.definitions| && e.definitions[n].perCustomerCap.Some?
      ensures Confirmed(e.rows, OfCustomer(n, c)) <= e.definitions[n].perCustomerCap.value
    {
      if n >= |d.definitions| { NoRowsOfUnknown(d.rows, |d.definitions|, OfCustomer(n, c)); }
      else { assert e.definitions[n].(standing := InForce) == d.definitions[n].(standing := InForce); }
    }
  }

  lemma BatchIsBound(states: seq<Desk>, i: nat, s: Step)
    requires i < |states| && Enabled(states, i, s) && Sound(states[i]) && Apply(states, i, s) != states[i]
    requires s.ReverseInsert? || (s.RedeemBatch? && Evolves(states[s.at], states[i]))
    ensures Bound(states[i], Apply(states, i, s).rows[|states[i].rows|])
  {
    var d := states[i];
    if s.ReverseInsert? {
      assert Bound(d, d.rows[s.row]);
    } else {
      var offer := Validate(states[s.at], s.code, s.order, None, s.now).value;
      if offer.issue.Some? {
        assert d.issues[offer.issue.value].(status := Active)
               == states[s.at].issues[offer.issue.value].(status := Active);
      }
    }
  }

  lemma StepKeepsSound(states: seq<Desk>, i: nat, s: Step)
    requires i < |states| && Enabled(states, i, s) && Sound(states[i])
    requires s.RedeemBatch? ==> Evolves(states[s.at], states[i])
    ensures Sound(Apply(states, i, s))
  {
    var d, e := states[i], Apply(states, i, s);
    StepEvolves(states, i, s);
    if s.RedeemBatch? || s.ReverseInsert? {
      if e != d {
        var r := e.rows[|d.rows|];
        assert Bound(d, r) by { BatchIsBound(states, i, s); }
        RowKeepsSound(d, r);
      }
    } else {
      TableKeepsSound(d, e);
    }
  }

  lemma {:induction false} RunEvolves(states: seq<Desk>, steps: seq<Step>, i: nat, j: nat)
    requires IsRun(states, steps) && i <= j <= |steps|
    ensures Evolves(states[i], states[j])
  {
    if i < j {
      RunEvolves(states, steps, i, j - 1);
      StepEvolves(states, j - 1, steps[j - 1]);
    }
  }

  lemma {:induction false} RunKeeps(states: seq<Desk>, steps: seq<Step>, i: nat)
    requires IsRun(states, steps) && i <= |steps|
    ensures Sound(states[i])
  {
    if i > 0 {
      RunKeeps(states, steps, i - 1);
      if steps[i - 1].RedeemBatch? { RunEvolves(states, steps, steps[i - 1].at, i - 1); }
      StepKeepsSound(states, i - 1, steps[i - 1]);
    }
  }

  /** In every interleaving of validations and redemptions the caps hold. */
  lemma CapsHold(states: seq<Desk>, steps: seq<Step>, i: nat, n: nat, c: Id, issue: nat)
    requires IsRun(states, steps) && i <= |steps| && n < |states[i].definitions|
    ensures var d := states[i]; var v := d.definitions[n];
            && (v.usageCap.Some? ==> Confirmed(d.rows, OfDefinition(n)) <= v.usageCap.value)
            && (v.perCustomerCap.Some? ==> Confirmed(d.rows, OfCustomer(n, c)) <= v.perCustomerCap.value)
            && Confirmed(d.rows, OfIssue(issue)) <= 1
  {
    RunKeeps(states, steps, i);
  }

  lemma {:induction false} ConfirmedIsCounted(rows: seq<Redemption>, r: nat, g: Group)
    requires r < |rows| && rows[r].confirmed && In(g, rows[r])
    ensures Confirmed(rows, g) >= 1
  {
    if r < |rows| - 1 { ConfirmedIsCounted(rows[..|rows| - 1], r, g); }
  }

  /** A redeemed personal voucher stays redeemed for good: whatever is reversed or restored in
      between, no later redemption of it is ever written. */
  lemma ReversalNeverReopens(states: seq<Desk>, steps: seq<Step>, i: nat, j: nat, row: nat)
    requires IsRun(states, steps) && i <= j < |steps|
    requires row < |states[i].rows| && states[i].rows[row].confirmed && states[i].rows[row].issue.Some?
    requires steps[j].RedeemBatch?
    requires Validate(states[steps[j].at], steps[j].code, steps[j].order, None, steps[j].now).value.issue
             == states[i].rows[row].issue
    ensures states[j + 1] == states[j]
  {
    RunEvolves(states, steps, i, j);
    assert states[j].rows[row] == states[i].rows[row];
    ConfirmedIsCounted(states[j].rows, row, OfIssue(states[i].rows[row].issue.value));
  }

  /** The order behind a redemption: its customer, and a subtotal that covers discount and minimum. */
  predicate Covers(o: Order, r: Redemption, v: Definition) {
    o.id == r.order && o.customer == r.customer && 0 <= r.discount <= o.subtotal && v.minimum <= o.subtotal
  }

  /** What every row in the table says about the order and the voucher it came from. */
  ghost predicate RowIsFair(states: seq<Desk>, steps: seq<Step>, i: nat, row: nat)
    requires |states| == |steps| + 1 && i <= |steps| && row < |states[i].rows|
    requires states[i].rows[row].definition < |states[i].definitions|
  {
    var d := states[i];
    var r := d.rows[row];
    var v := d.definitions[r.definition];
    if r.confirmed then
      && v.items == {} && v.categories == {}
      && (v.customerSpecific ==> r.customer.Some? && r.issue.Some? && r.issue.value < |d.issues|)
      && (v.customerSpecific ==> d.issues[r.issue.value].customer == r.customer)
      && exists k :: 0 <= k < i && steps[k].RedeemBatch? && Covers(steps[k].order, r, v)
    else
      && v.restorable && r.source.Some? && r.source.value < row && d.rows[r.source.value].confirmed
      && d.rows[r.source.value]
           == r.(confirmed := true, source := d.rows[r.source.value].source, key := d.rows[r.source.value].key)
  }

  lemma OldRowStaysFair(states: seq<Desk>, steps: seq<Step>, i: nat, row: nat)
    requires IsRun(states, steps) && i < |steps| && Sound(states[i]) && Sound(states[i + 1]) && row < |states[i].rows|
    requires RowIsFair(states, steps, i, row)
    ensures states[i].rows <= states[i + 1].rows && RowIsFair(states, steps, i + 1, row)
  {
    StepEvolves(states, i, steps[i]);
    var r := states[i].rows[row];
    assert states[i + 1].definitions[r.definition].(standing := InForce)
           == states[i].definitions[r.definition].(standing := InForce);
    if r.confirmed {
      var k :| 0 <= k < i && steps[k].RedeemBatch? && Covers(steps[k].order, r, states[i].definitions[r.definition]);
      assert 0 <= k < i + 1;
    }
  }

  lemma NewRowIsFair(states: seq<Desk>, steps: seq<Step>, i: nat)
    requires IsRun(states, steps) && i < |steps| && Sound(states[i]) && Sound(states[i + 1])
    requires states[i + 1].rows != states[i].rows
    ensures |states[i + 1].rows| == |states[i].rows| + 1 && RowIsFair(states, steps, i + 1, |states[i].rows|)
  {
    var s := steps[i];
    if s.RedeemBatch? {
      DiscountFits(states[s.at], s.code, s.order, None, s.now);
      RunEvolves(states, steps, s.at, i);
      StepEvolves(states, i, s);
      var offer := Validate(states[s.at], s.code, s.order, None, s.now).value;
      var v := states[s.at].definitions[offer.definition];
      assert states[i].definitions[offer.definition].(standing := InForce) == v.(standing := InForce);
      if offer.issue.Some? {
        assert states[i].issues[offer.issue.value].(status := Active)
               == states[s.at].issues[offer.issue.value].(status := Active);
      }
    }
  }

  /** Every CONFIRMED row stands for one validated order whose subtotal covers the discount and the
      minimum spend, of the customer the voucher was handed to where it is personal; a voucher
      scoped to items or categories is never redeemed this way, because redemption validates
      without order lines. Every REVERSED row copies an earlier CONFIRMED one that may be restored. */
  lemma {:induction false} RedemptionsAreFair(states: seq<Desk>, steps: seq<Step>, i: nat, row: nat)
    requires IsRun(states, steps) && i <= |steps| && row < |states[i].rows|
    ensures states[i].rows[row].definition < |states[i].definitions| && RowIsFair(states, steps, i, row)
  {
    RunKeeps(states, steps, i);
    if i > 0 {
      RunKeeps(states, steps, i - 1);
      if row < |states[i - 1].rows| {
        RedemptionsAreFair(states, steps, i - 1, row);
        OldRowStaysFair(states, steps, i - 1, row);
      } else {
        LaterRowIsFair(states, steps, i - 1, row);
      }
    }
  }

  lemma LaterRowIsFair(states: seq<Desk>, steps: seq<Step>, i: nat, row: nat)
    requires IsRun(states, steps) && i < |steps| && Sound(states[i]) && Sound(states[i + 1])
    requires |states[i].rows| <= row < |states[i + 1].rows|
    ensures states[i + 1].rows[row].definition < |states[i + 1].definitions| && RowIsFair(states, steps, i + 1, row)
  {
    NewRowIsFair(states, steps, i);
    assert Bound(states[i + 1], states[i + 1].rows[row]);
  }

  // --- Calls -------------------------------------------------------------------------------------

  /** The confirmed rows stand exactly at the cap, and a reversal makes validation see fewer. */
  predicate FullBehindReversal(cap: Option<nat>, rows: seq<Redemption>, n: nat, g: Group) {
    cap.Some? && Confirmed(rows, g) == cap.value && (cap.value == 0 || Reversals(rows, n, g) > 0)
  }

  /** The issue was redeemed, and is on offer again because it may be used repeatedly, or because that
      redemption was reversed. */
  predicate TakenYetOffered(v: Definition, rows: seq<Redemption>, n: nat, issue: nat) {
    Confirmed(rows, OfIssue(issue)) == 1 && (v.singleUse ==> Reversals(rows, n, OfIssue(issue)) > 0)
  }

  lemma CapVersusGuard(rows: seq<Redemption>, n: nat, g: Group, cap: nat)
    requires forall r :: 0 <= r < |rows| && In(g, rows[r]) ==> rows[r].definition == n
    requires Confirmed(rows, g) <= cap && !CapReached(Some(cap), Usage(rows, n, g))
    ensures Confirmed(rows, g) >= cap <==> FullBehindReversal(Some(cap), rows, n, g)
  {
    UsageIsNet(rows, n, g);
  }

  lemma IssueVersusGuard(d: Desk, issue: nat)
    requires Sound(d) && issue < |d.issues|
    requires var n := d.issues[issue].definition;
             d.definitions[n].singleUse ==> Usage(d.rows, n, OfIssue(issue)) <= 0
    ensures var n := d.issues[issue].definition;
            Confirmed(d.rows, OfIssue(issue)) > 0 <==> TakenYetOffered(d.definitions[n], d.rows, n, issue)
  {
    forall r | 0 <= r < |d.rows| && In(OfIssue(issue), d.rows[r])
      ensures d.rows[r].definition == d.issues[issue].definition
    {
      assert Bound(d, d.rows[r]);
    }
    UsageIsNet(d.rows, d.issues[issue].definition, OfIssue(issue));
  }

  /** Which offers of validation the insert refuses at once: validation counts confirmed minus reversed
      redemptions, the insert confirmed ones only, so an offer is refused exactly when a cap is zero,
      when the confirmed redemptions stand at a cap and some of them were reversed, or when a personal
      voucher was redeemed and is either not single use or was reversed. */
  lemma GuardVersusValidation(d: Desk, code: Code, o: Order, lines: Option<seq<Line>>, now: Time)
    requires Sound(d) && Validate(d, code, o, lines, now).Ok?
    ensures var offer := Validate(d, code, o, lines, now).value; var n := offer.definition; var v := d.definitions[n];
            !Free(d.rows, v, n, offer.issue, o.customer)
            <==> (|| FullBehindReversal(v.usageCap, d.rows, n, OfDefinition(n))
                  || (o.customer.Some?
                      && FullBehindReversal(v.perCustomerCap, d.rows, n, OfCustomer(n, o.customer.value)))
                  || (offer.issue.Some? && TakenYetOffered(v, d.rows, n, offer.issue.value)))
  {
    var offer := Validate(d, code, o, lines, now).value;
    var n := offer.definition;
    var v := d.definitions[n];
    if v.usageCap.Some? { CapVersusGuard(d.rows, n, OfDefinition(n), v.usageCap.value); }
    if v.perCustomerCap.Some? && o.customer.Some? {
      CapVersusGuard(d.rows, n, OfCustomer(n, o.customer.value), v.perCustomerCap.value);
    }
    if offer.issue.Some? { IssueVersusGuard(d, offer.issue.value); }
  }

  predicate NoneReversed(rows: seq<Redemption>, n: nat) {
    forall r :: 0 <= r < |rows| && rows[r].definition == n ==> rows[r].confirmed
  }

  lemma {:induction false} NoReversals(rows: seq<Redemption>, n: nat, g: Group)
    requires NoneReversed(rows, n)
    ensures Reversals(rows, n, g) == 0
  {
    if rows != [] { NoReversals(rows[..|rows| - 1], n, g); }
  }

  /** With nothing reversed and caps above zero, the only offer that fails at once is that of a
      personal voucher which is not single use and was redeemed before. */
  lemma GuardWithoutReversals(d: Desk, code: Code, o: Order, lines: Option<seq<Line>>, now: Time)
    requires Sound(d) && Validate(d, code, o, lines, now).Ok?
    requires var offer := Validate(d, code, o, lines, now).value; var v := d.definitions[offer.definition];
             NoneReversed(d.rows, offer.definition) && v.usageCap != Some(0) && v.perCustomerCap != Some(0)
    ensures var offer := Validate(d, code, o, lines, now).value; var v := d.definitions[offer.definition];
            Free(d.rows, v, offer.definition, offer.issue, o.customer)
            <==> offer.issue.None? || v.singleUse || Confirmed(d.rows, OfIssue(offer.issue.value)) == 0
  {
    var offer := Validate(d, code, o, lines, now).value;
    var n := offer.definition;
    GuardVersusValidation(d, code, o, lines, now);
    NoReversals(d.rows, n, OfDefinition(n));
    if o.customer.Some? { NoReversals(d.rows, n, OfCustomer(n, o.customer.value)); }
    if offer.issue.Some? { NoReversals(d.rows, n, OfIssue(offer.issue.value)); }
  }

  // Two runs in which validation makes an offer that the insert refuses.

  /** A personal voucher worth five, without conditions. */
  function Plain(singleUse: bool): Definition {
    Definition(InForce, 0, None, {}, {}, {}, {}, 0, None, FixedMinor, 5, None, None, false, singleUse, true)
  }

  const PERSONAL := Issue(0, None, Active, None)

  function OrderOf(id: Id): Order {
    Order(id, None, 0, 0, 100, None, 0)
  }

  function Taken(singleUse: bool, rows: seq<Redemption>, s: IssueStatus): Desk {
    Desk([Plain(singleUse)], [PERSONAL.(status := s)], rows)
  }

  const FIRST := Redemption(0, Some(0), None, 0, 5, true, None, 0)
  const UNDONE := FIRST.(confirmed := false, source := Some(0), key := 1)

  function RedeemRun(singleUse: bool): (seq<Desk>, seq<Step>) {
    ([Desk([], [], []), Desk([Plain(singleUse)], [], []), Taken(singleUse, [], Active),
      Taken(singleUse, [FIRST], Active)],
     [Define(Plain(singleUse)), Hand(PERSONAL), RedeemBatch(2, Personal(0), OrderOf(0), 0, 0)])
  }

  lemma CountsOf(rows: seq<Redemption>, g: Group)
    requires rows == [FIRST] || rows == [FIRST, UNDONE] || rows == []
    ensures rows == [] ==> Confirmed(rows, g) == 0 && Usage(rows, 0, g) == 0
    ensures rows == [FIRST] ==> Confirmed(rows, g) == Usage(rows, 0, g) == if In(g, FIRST) then 1 else 0
    ensures rows == [FIRST, UNDONE] ==> Confirmed(rows, g) == (if In(g, FIRST) then 1 else 0) && Usage(rows, 0, g) == 0
  {
    CountsOfFirst(g);
    OneMoreRow([FIRST], UNDONE, 0, g);
    assert [FIRST] + [UNDONE] == [FIRST, UNDONE];
    assert In(g, UNDONE) <==> In(g, FIRST);
  }

  lemma CountsOfFirst(g: Group)
    ensures Confirmed([], g) == 0 && Usage([], 0, g) == 0
    ensures Confirmed([FIRST], g) == Usage([FIRST], 0, g) == if In(g, FIRST) then 1 else 0
  {
    OneMoreRow([], FIRST, 0, g);
    assert [] + [FIRST] == [FIRST];
  }

  lemma OfferedAgain(singleUse: bool, rows: seq<Redemption>, id: Id)
    requires rows == [] || (rows == [FIRST] && !singleUse) || rows == [FIRST, UNDONE]
    ensures Linked(Taken(singleUse, rows, Active))
    ensures Validate(Taken(singleUse, rows, Active), Personal(0), OrderOf(id), None, 0) == Ok(Offer(0, Some(0), 5))
  {
    CountsOf(rows, OfDefinition(0));
    CountsOf(rows, OfIssue(0));
  }

  lemma RedeemRunIsRun(singleUse: bool)
    ensures IsRun(RedeemRun(singleUse).0, RedeemRun(singleUse).1)
  {
    var (states, steps) := RedeemRun(singleUse);
    OfferedAgain(singleUse, [], 0);
    CountsOf([], OfIssue(0));
    assert [] + [Plain(singleUse)] == [Plain(singleUse)] && [] + [PERSONAL] == [PERSONAL];
    assert PERSONAL.(status := Active) == PERSONAL;
    assert [] + [FIRST] == [FIRST];
    assert Apply(states, 2, steps[2]) == states[3];
  }

  /** A personal voucher that is not single use is redeemed, offered a second time, and refused. */
  lemma MultiUseIsOfferedAndRefused()
    ensures var (states, steps) := RedeemRun(false); var d := Taken(false, [FIRST], Active);
            && IsRun(states, steps) && states[3] == d
            && Validate(d, Personal(0), OrderOf(1), None, 0) == Ok(Offer(0, Some(0), 5))
            && Redeem(d, Offer(0, Some(0), 5), OrderOf(1), 2) == d
  {
    RedeemRunIsRun(false);
    OfferedAgain(false, [FIRST], 1);
    CountsOf([FIRST], OfIssue(0));
  }

  function ReverseRun(): (seq<Desk>, seq<Step>) {
    var (states, steps) := RedeemRun(true);
    (states + [Taken(true, [FIRST], Redeemed), Taken(true, [FIRST, UNDONE], Redeemed),
               Taken(true, [FIRST, UNDONE], Active)],
     steps + [MarkRedeemed(0, 0), ReverseInsert(0, 1), Restore(0)])
  }

  lemma ReverseRunIsRun()
    ensures IsRun(ReverseRun().0, ReverseRun().1)
  {
    RedeemRunIsRun(true);
    var (before, first) := RedeemRun(true);
    var (states, steps) := ReverseRun();
    forall i {:trigger steps[i]} | 0 <= i < |steps|
      ensures Enabled(states, i, steps[i]) && states[i + 1] == Apply(states, i, steps[i])
    {
      if i < 3 {
        assert steps[i] == first[i] && states[i] == before[i] && states[i + 1] == before[i + 1];
        assert states[2] == before[2];
      }
    }
  }

  /** A single-use personal voucher is redeemed, reversed and restored; it validates again, and the
      redemption is refused. */
  lemma ReversedValidatesAgain()
    ensures var (states, steps) := ReverseRun(); var d := Taken(true, [FIRST, UNDONE], Active);
            && IsRun(states, steps) && states[6] == d
            && Validate(d, Personal(0), OrderOf(1), None, 0) == Ok(Offer(0, Some(0), 5))
            && Redeem(d, Offer(0, Some(0), 5), OrderOf(1), 2) == d
  {
    ReverseRunIsRun();
    OfferedAgain(true, [FIRST, UNDONE], 1);
    CountsOf([FIRST, UNDONE], OfIssue(0));
  }

  datatype Receipt = Receipt(discount: int, duplicate: bool)

  class VoucherService {
    var definitions: seq<Definition>
    var issues: seq<Issue>
    var rows: seq<Redemption>

    ghost function View(): Desk
      reads this
    {
      Desk(definitions, issues, rows)
    }

    constructor (definitions: seq<Definition>, issues: seq<Issue>)
      requires Linked(Desk(definitions, issues, []))
      ensures View() == Desk(definitions, issues, []) && Sound(View())
    {
      this.definitions, this.issues, rows := definitions, issues, [];
    }

    /** redeemVoucher. */
    method RedeemVoucher(code: Code, o: Order, now: Time, key: Id) returns (r: Result<Receipt, Error>)
      requires Sound(View())
      modifies this`issues, this`rows
      ensures Sound(View())
      ensures var d := old(View()); var offer := Validate(d, code, o, None, now);
              match r
              case Ok(Receipt(discount, true)) => View() == d
                && exists k :: 0 <= k < |d.rows| && d.rows[k].key == key && d.rows[k].discount == discount
              case Ok(Receipt(discount, false)) =>
                && !Used(d.rows, key) && offer.Ok? && discount == offer.value.discount && 0 <= discount <= o.subtotal
                && rows == d.rows
                     + [Redemption(offer.value.definition, offer.value.issue, o.customer, o.id, discount, true, None,
                                   key)]
                && issues == (if offer.value.issue.Some? && definitions[offer.value.definition].singleUse
                              then WithStatus(d, offer.value.issue.value, Redeemed).issues else d.issues)
              case Err(e) =>
                && View() == d && !Used(d.rows, key)
                && (offer.Err? ==> e == offer.error)
                && (offer.Ok? ==> e == Conflict && !IsFree(d, offer.value, o.customer))
    {
      if Used(rows, key) {
        var k :| 0 <= k < |rows| && rows[k].key == key;
        return Ok(Receipt(rows[k].discount, true));
      }
      var validation := Validate(Desk(definitions, issues, rows), code, o, None, now);
      if validation.Err? { return Err(validation.error); }
      DiscountFits(View(), code, o, None, now);
      var offer := validation.value;
      var v := definitions[offer.definition];
      if !Free(rows, v, offer.definition, offer.issue, o.customer) { return Err(Conflict); }
      var row := Redemption(offer.definition, offer.issue, o.customer, o.id, offer.discount, true, None, key);
      RowKeepsSound(View(), row);
      rows := rows + [row];
      if offer.issue.Some? && v.singleUse {
        TableKeepsSound(View(), WithStatus(View(), offer.issue.value, Redeemed));
        issues := issues[offer.issue.value := issues[offer.issue.value].(status := Redeemed)];
      }
      r := Ok(Receipt(offer.discount, false));
    }

    /** reverseVoucherRedemption. */
    method ReverseVoucherRedemption(row: nat, key: Id) returns (r: Result<bool, Error>)
      requires Sound(View())
      modifies this`issues, this`rows
      ensures Sound(View()) && definitions == old(definitions)
      ensures var d := old(View());
              match r
              case Ok(duplicate) =>
                && row < |d.rows| && d.rows[row].confirmed && definitions[d.rows[row].definition].restorable
                && rows == Reverse(d, row, key).rows && duplicate == Used(d.rows, key)
                && issues
                     == (if !duplicate && d.rows[row].issue.Some?
                         && d.issues[d.rows[row].issue.value].status == Redeemed
                              then WithStatus(d, d.rows[row].issue.value, Active).issues else d.issues)
              case Err(NotFound) => View() == d && (row >= |d.rows| || !d.rows[row].confirmed)
              case Err(NotEligible) =>
                View() == d && row < |d.rows| && d.rows[row].confirmed
                && !definitions[d.rows[row].definition].restorable
              case Err(e) =>
                && View() == d && e == Conflict && row < |d.rows| && d.rows[row].confirmed
                && definitions[d.rows[row].definition].restorable
                && !Used(d.rows, key) && Collides(d.rows, d.rows[row].issue, d.rows[row].order, false)
    {
      if row >= |rows| || !rows[row].confirmed { return Err(NotFound); }
      var original := rows[row];
      assert Bound(View(), original);
      if !definitions[original.definition].restorable { return Err(NotEligible); }
      if Used(rows, key) { return Ok(true); }
      if Collides(rows, original.issue, original.order, false) { return Err(Conflict); }
      RowKeepsSound(View(), original.(confirmed := false, source := Some(row), key := key));
      rows := rows + [original.(confirmed := false, source := Some(row), key := key)];
      if original.issue.Some? && issues[original.issue.value].status == Redeemed {
        TableKeepsSound(View(), WithStatus(View(), original.issue.value, Active));
        issues := issues[original.issue.value := issues[original.issue.value].(status := Active)];
      }
      r := Ok(false);
    }
  }
}
