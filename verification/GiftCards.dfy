/**
 Gift cards: an append-only value ledger, the double-entry journal written in the same batch as
 each ledger row, and the card status that follows the balance.
 */
module GiftCards {
  import opened Common

  // --- Tables ---------------------------------------------------------------------------------

  datatype Status = Active | Redeemed | Expired

  /** One row of gift_cards; a card is identified by its place in the table. */
  datatype Card = Card(liability: Id, collection: Id, redemption: Id, original: int, currency: Id,
                       expiresAt: Option<Time>, status: Status)

  datatype Kind = Issue | Redeem | Refund | Expiry

  /** A caller's idempotency key, or the one the expiry worker derives from card and day. */
  datatype Key = Request(n: Id) | Daily(card: nat, day: int)

  /** One row of gift_card_ledger; a row is identified by its place in the table. */
  datatype Entry = Entry(card: nat, kind: Kind, amount: int, source: Option<nat>, key: Key)

  /** A journal entry names the ledger row it books. */
  datatype Journal = Journal(source: nat, posted: bool)

  datatype Line = Line(journal: nat, number: nat, account: Id, debit: int, credit: int)

  datatype Books = Books(cards: seq<Card>, ledger: seq<Entry>, journals: seq<Journal>, lines: seq<Line>)

  // --- Sums -------------------------------------------------------------------------------------

  function Balance(ledger: seq<Entry>, card: nat): int {
    if ledger == [] then 0
    else
      var e := ledger[|ledger| - 1];
      Balance(ledger[..|ledger| - 1], card) + if e.card == card then e.amount else 0
  }

  /** What refunds have given back of the redemption at row `r`. */
  function Refunded(ledger: seq<Entry>, r: nat): int {
    if ledger == [] then 0
    else
      var e := ledger[|ledger| - 1];
      Refunded(ledger[..|ledger| - 1], r) + if e.kind == Refund && e.source == Some(r) then e.amount else 0
  }

  /** Value expired on one card. */
  function ExpiredOn(ledger: seq<Entry>, card: nat): int {
    if ledger == [] then 0
    else
      var e := ledger[|ledger| - 1];
      ExpiredOn(ledger[..|ledger| - 1], card) - if e.card == card && e.kind == Expiry then e.amount else 0
  }

  function NetCredit(lines: seq<Line>, account: Id): int {
    if lines == [] then 0
    else
      var l := lines[|lines| - 1];
      NetCredit(lines[..|lines| - 1], account) + if l.account == account then l.credit - l.debit else 0
  }

  /** Balances and expired value of the cards, among the first `n`, whose liability account is `account`. */
  function Owed(cards: seq<Card>, ledger: seq<Entry>, account: Id, n: nat): int
    requires n <= |cards|
  {
    if n == 0 then 0
    else
      Owed(cards, ledger, account, n - 1)
      + if cards[n - 1].liability == account then Balance(ledger, n - 1) + ExpiredOn(ledger, n - 1) else 0
  }

  // --- What the journal must say ----------------------------------------------------------------

  /** The two lines that book a ledger row; an expiry is not booked. */
  function LinesOf(card: Card, row: nat, e: Entry): seq<Line> {
    match e.kind
    case Issue => [Line(row, 1, card.collection, e.amount, 0), Line(row, 2, card.liability, 0, e.amount)]
    case Redeem => [Line(row, 1, card.liability, -e.amount, 0), Line(row, 2, card.redemption, 0, -e.amount)]
    case Refund => [Line(row, 1, card.redemption, e.amount, 0), Line(row, 2, card.liability, 0, e.amount)]
    case Expiry => []
  }

  function JournalsOf(row: nat, e: Entry): seq<Journal> {
    if e.kind == Expiry then [] else [Journal(row, true)]
  }

  ghost predicate KnownCards(cards: seq<Card>, ledger: seq<Entry>) {
    forall i :: 0 <= i < |ledger| ==> ledger[i].card < |cards|
  }

  function BookedLines(cards: seq<Card>, ledger: seq<Entry>): seq<Line>
    requires KnownCards(cards, ledger)
  {
    if ledger == [] then []
    else
      var n := |ledger| - 1;
      BookedLines(cards, ledger[..n]) + LinesOf(cards[ledger[n].card], n, ledger[n])
  }

  function BookedJournals(ledger: seq<Entry>): seq<Journal> {
    if ledger == [] then [] else BookedJournals(ledger[..|ledger| - 1]) + JournalsOf(|ledger| - 1, ledger[|ledger| - 1])
  }

  // --- Invariants -------------------------------------------------------------------------------

  /** The journal is exactly what the ledger books, row by row. */
  ghost predicate Booked(b: Books) {
    && KnownCards(b.cards, b.ledger)
    && b.journals == BookedJournals(b.ledger)
    && b.lines == BookedLines(b.cards, b.ledger)
  }

  predicate UsedKey(ledger: seq<Entry>, key: Key) {
    exists i :: 0 <= i < |ledger| && ledger[i].key == key
  }

  /** A refund names an earlier redemption of the same card. */
  predicate EntryOk(ledger: seq<Entry>, i: nat)
    requires i < |ledger|
  {
    var e := ledger[i];
    match e.kind
    case Issue => e.amount > 0 && e.source.None?
    case Redeem => e.amount < 0 && e.source.None?
    case Refund => e.amount > 0 && e.source.Some? && e.source.value < i && ledger[e.source.value].kind == Redeem
      && ledger[e.source.value].card == e.card
    case Expiry => e.amount < 0 && e.source.None?
  }

  /** Redeemed and not refunded, over the redemptions of a card among the first `n` rows. */
  function Spent(ledger: seq<Entry>, card: nat, n: nat): int
    requires n <= |ledger|
  {
    if n == 0 then 0
    else
      Spent(ledger, card, n - 1)
      + if ledger[n - 1].card == card && ledger[n - 1].kind == Redeem
        then -ledger[n - 1].amount - Refunded(ledger, n - 1) else 0
  }

  ghost predicate Bounded(b: Books) {
    && (forall i :: 0 <= i < |b.ledger| ==> EntryOk(b.ledger, i))
    && (forall r :: 0 <= r < |b.ledger| && b.ledger[r].kind == Redeem ==>
          0 <= Refunded(b.ledger, r) <= -b.ledger[r].amount)
    && (forall c :: 0 <= c < |b.cards| ==>
          && 0 <= Balance(b.ledger, c)
          && 0 <= ExpiredOn(b.ledger, c)
          && Balance(b.ledger, c) + Spent(b.ledger, c, |b.ledger|) + ExpiredOn(b.ledger, c) == b.cards[c].original)
    && (forall i, j :: 0 <= i < j < |b.ledger| ==> b.ledger[i].key != b.ledger[j].key)
  }

  /** Between completed calls a card is ACTIVE exactly when it has a balance. */
  ghost predicate Settled(b: Books) {
    forall c :: 0 <= c < |b.cards| ==> (b.cards[c].status == Active <==> Balance(b.ledger, c) > 0)
  }

  // --- The atomic steps -------------------------------------------------------------------------

  datatype Step =
    | IssueBatch(issued: Card, key: Key)
    | RedeemBatch(card: nat, amount: int, key: Key)
    | RedeemStatus(card: nat)
    | RefundBatch(card: nat, original: nat, amount: int, key: Key)
    | RefundStatus(card: nat)
    | ExpireInsert(card: nat, planned: int, day: int)
    | ExpireStatus(card: nat)

  /** What the caller read before it committed, from columns that never change; only the balance that
      an expiry planned to take may have changed since. */
  predicate Enabled(b: Books, s: Step) {
    match s
    case IssueBatch(issued, key) => issued.original > 0 && issued.status == Active && key.Request?
    case RedeemBatch(card, amount, key) => card < |b.cards| && amount > 0 && key.Request?
    case RedeemStatus(card) => card < |b.cards|
    case RefundBatch(card, original, amount, key) =>
      && card < |b.cards| && amount > 0 && key.Request? && original < |b.ledger| && b.ledger[original].card == card
      && b.ledger[original].kind == Redeem && amount <= -b.ledger[original].amount
    case RefundStatus(card) => card < |b.cards|
    case ExpireInsert(card, planned, _) => card < |b.cards| && planned > 0
    case ExpireStatus(card) => card < |b.cards|
  }

  /** The insert of a ledger row with its journal, as one batch. */
  function Post(b: Books, e: Entry): Books
    requires e.card < |b.cards|
  {
    var row := |b.ledger|;
    Books(b.cards, b.ledger + [e], b.journals + JournalsOf(row, e), b.lines + LinesOf(b.cards[e.card], row, e))
  }

  function WithStatus(b: Books, card: nat, s: Status): Books
    requires card < |b.cards|
  {
    b.(cards := b.cards[card := b.cards[card].(status := s)])
  }

  /** The trigger on the ledger aborts a row that takes more than the balance; a used key skips it. */
  predicate ExpiryFits(b: Books, card: nat, planned: int, day: int) {
    Balance(b.ledger, card) >= planned && !UsedKey(b.ledger, Daily(card, day))
  }

  predicate Expirable(b: Books, card: nat, asOf: Time)
    requires card < |b.cards|
  {
    b.cards[card].status == Active && b.cards[card].expiresAt.Some? && b.cards[card].expiresAt.value <= asOf
    && Balance(b.ledger, card) > 0
  }

  function Apply(b: Books, s: Step): Books
    requires Enabled(b, s)
  {
    match s
    case IssueBatch(issued, key) =>
      if UsedKey(b.ledger, key) then b
      else Post(b.(cards := b.cards + [issued]), Entry(|b.cards|, Issue, issued.original, None, key))
    case RedeemBatch(card, amount, key) =>
      if Balance(b.ledger, card) - amount >= 0 && !UsedKey(b.ledger, key)
      then Post(b, Entry(card, Redeem, -amount, None, key)) else b
    case RedeemStatus(card) => if Balance(b.ledger, card) == 0 then WithStatus(b, card, Redeemed) else b
    case RefundBatch(card, original, amount, key) =>
      if amount <= -b.ledger[original].amount - Refunded(b.ledger, original) && !UsedKey(b.ledger, key)
      then Post(b, Entry(card, Refund, amount, Some(original), key)) else b
    case RefundStatus(card) => WithStatus(b, card, Active)
    case ExpireInsert(card, planned, day) =>
      if ExpiryFits(b, card, planned, day) then Post(b, Entry(card, Expiry, -planned, None, Daily(card, day))) else b
    case ExpireStatus(card) => WithStatus(b, card, Expired)
  }

  // --- Every step keeps the books -----------------------------------------------------------------

  /** A status change, or a new card, leaves the booked lines of older rows alone. */
  predicate SameAccounts(before: seq<Card>, after: seq<Card>) {
    |before| <= |after| && forall c :: 0 <= c < |before| ==>
      after[c].liability == before[c].liability && after[c].collection == before[c].collection
      && after[c].redemption == before[c].redemption
      && after[c].original == before[c].original
  }

  lemma {:induction false} LinesKeepAccounts(before: seq<Card>, after: seq<Card>, ledger: seq<Entry>)
    requires SameAccounts(before, after) && KnownCards(before, ledger)
    ensures KnownCards(after, ledger) && BookedLines(after, ledger) == BookedLines(before, ledger)
  {
    if ledger != [] { LinesKeepAccounts(before, after, ledger[..|ledger| - 1]); }
  }

  lemma PostKeepsBooked(b: Books, e: Entry)
    requires Booked(b) && e.card < |b.cards|
    ensures Booked(Post(b, e))
  {
    assert Post(b, e).ledger[..|b.ledger|] == b.ledger;
  }

  lemma StatusKeepsBooked(b: Books, card: nat, s: Status)
    requires Booked(b) && card < |b.cards|
    ensures Booked(WithStatus(b, card, s))
  {
    LinesKeepAccounts(b.cards, WithStatus(b, card, s).cards, b.ledger);
  }

  lemma NewCardKeepsBooked(b: Books, issued: Card)
    requires Booked(b)
    ensures Booked(b.(cards := b.cards + [issued]))
  {
    LinesKeepAccounts(b.cards, b.cards + [issued], b.ledger);
  }

  lemma IssueKeepsBooked(b: Books, issued: Card, key: Key)
    requires Booked(b) && Enabled(b, IssueBatch(issued, key))
    ensures Booked(Apply(b, IssueBatch(issued, key)))
  {
    NewCardKeepsBooked(b, issued);
    PostKeepsBooked(b.(cards := b.cards + [issued]), Entry(|b.cards|, Issue, issued.original, None, key));
  }

  lemma RedeemKeepsBooked(b: Books, card: nat, amount: int, key: Key)
    requires Booked(b) && Enabled(b, RedeemBatch(card, amount, key))
    ensures Booked(Apply(b, RedeemBatch(card, amount, key)))
  {
    PostKeepsBooked(b, Entry(card, Redeem, -amount, None, key));
  }

  lemma RefundKeepsBooked(b: Books, card: nat, original: nat, amount: int, key: Key)
    requires Booked(b) && Enabled(b, RefundBatch(card, original, amount, key))
    ensures Booked(Apply(b, RefundBatch(card, original, amount, key)))
  {
    PostKeepsBooked(b, Entry(card, Refund, amount, Some(original), key));
  }

  lemma StepKeepsBooked(b: Books, s: Step)
    requires Booked(b) && Enabled(b, s)
    ensures Booked(Apply(b, s))
  {
    match s
    case IssueBatch(issued, key) => IssueKeepsBooked(b, issued, key);
    case RedeemBatch(card, amount, key) => RedeemKeepsBooked(b, card, amount, key);
    case RedeemStatus(card) => StatusKeepsBooked(b, card, Redeemed);
    case RefundBatch(card, original, amount, key) => RefundKeepsBooked(b, card, original, amount, key);
    case RefundStatus(card) => StatusKeepsBooked(b, card, Active);
    case ExpireInsert(card, planned, day) => PostKeepsBooked(b, Entry(card, Expiry, -planned, None, Daily(card, day)));
    case ExpireStatus(card) => StatusKeepsBooked(b, card, Expired);
  }

  lemma SumsAfter(ledger: seq<Entry>, e: Entry, card: nat, r: nat)
    ensures Balance(ledger + [e], card) == Balance(ledger, card) + (if e.card == card then e.amount else 0)
    ensures Refunded(ledger + [e], r)
            == Refunded(ledger, r) + (if e.kind == Refund && e.source == Some(r) then e.amount else 0)
    ensures ExpiredOn(ledger + [e], card)
            == ExpiredOn(ledger, card) - (if e.card == card && e.kind == Expiry then e.amount else 0)
  {
    assert (ledger + [e])[..|ledger|] == ledger;
  }

  /** A refund lowers what is spent by its amount; no other row changes what older rows spent. */
  lemma {:induction false} SpentAfter(ledger: seq<Entry>, e: Entry, card: nat, n: nat)
    requires n <= |ledger|
    ensures Spent(ledger + [e], card, n) == Spent(ledger, card, n)
              - (if e.kind == Refund && e.source.Some? && e.source.value < n && ledger[e.source.value].card == card
                 && ledger[e.source.value].kind == Redeem then e.amount else 0)
  {
    if n > 0 {
      SpentAfter(ledger, e, card, n - 1);
      SumsAfter(ledger, e, card, n - 1);
    }
  }

  lemma {:induction false} NoRefundOfLaterRow(ledger: seq<Entry>, r: nat)
    requires forall i :: 0 <= i < |ledger| && ledger[i].kind == Refund ==> ledger[i].source != Some(r)
    ensures Refunded(ledger, r) == 0
  {
    if ledger != [] { NoRefundOfLaterRow(ledger[..|ledger| - 1], r); }
  }

  lemma {:induction false} UnusedCardIsEmpty(ledger: seq<Entry>, card: nat, n: nat)
    requires n <= |ledger| && forall i :: 0 <= i < |ledger| ==> ledger[i].card != card
    ensures Balance(ledger, card) == 0 && ExpiredOn(ledger, card) == 0 && Spent(ledger, card, n) == 0
  {
    if n > 0 { UnusedCardIsEmpty(ledger, card, n - 1); }
    else if ledger != [] { UnusedCardIsEmpty(ledger[..|ledger| - 1], card, 0); }
  }

  /** The account of one card after one more row. */
  lemma CardAfter(ledger: seq<Entry>, e: Entry, card: nat)
    requires forall i :: 0 <= i < |ledger| ==> EntryOk(ledger, i)
    requires EntryOk(ledger + [e], |ledger|)
    ensures var after := ledger + [e];
            Balance(after, card) + Spent(after, card, |after|) + ExpiredOn(after, card)
            == Balance(ledger, card) + Spent(ledger, card, |ledger|) + ExpiredOn(ledger, card)
              + (if e.card == card && e.kind == Issue then e.amount else 0)
  {
    var after := ledger + [e];
    SumsAfter(ledger, e, card, |ledger|);
    SpentAfter(ledger, e, card, |ledger|);
    forall i | 0 <= i < |ledger| && ledger[i].kind == Refund
      ensures ledger[i].source != Some(|ledger|)
    {
      assert EntryOk(ledger, i);
    }
    NoRefundOfLaterRow(ledger, |ledger|);
  }

  lemma PostKeepsEntries(b: Books, e: Entry)
    requires Bounded(b) && EntryOk(b.ledger + [e], |b.ledger|) && !UsedKey(b.ledger, e.key)
    requires e.kind == Refund ==> e.amount <= -b.ledger[e.source.value].amount - Refunded(b.ledger, e.source.value)
    ensures var after := b.ledger + [e];
            && (forall i :: 0 <= i < |after| ==> EntryOk(after, i))
            && (forall r :: 0 <= r < |after| && after[r].kind == Redeem ==> 0 <= Refunded(after, r) <= -after[r].amount)
            && (forall i, j :: 0 <= i < j < |after| ==> after[i].key != after[j].key)
  {
    var after := b.ledger + [e];
    forall i | 0 <= i < |after| ensures EntryOk(after, i) {
      if i < |b.ledger| { assert EntryOk(b.ledger, i); }
    }
    forall r | 0 <= r < |after| && after[r].kind == Redeem ensures 0 <= Refunded(after, r) <= -after[r].amount {
      SumsAfter(b.ledger, e, 0, r);
      if r == |b.ledger| {
        forall i | 0 <= i < |b.ledger| && b.ledger[i].kind == Refund
          ensures b.ledger[i].source != Some(r)
        {
          assert EntryOk(b.ledger, i);
        }
        NoRefundOfLaterRow(b.ledger, r);
      }
    }
  }

  lemma PostKeepsBounded(b: Books, e: Entry)
    requires Bounded(b) && e.card < |b.cards| && e.kind != Issue
    requires EntryOk(b.ledger + [e], |b.ledger|) && !UsedKey(b.ledger, e.key)
    requires e.kind == Refund ==> e.amount <= -b.ledger[e.source.value].amount - Refunded(b.ledger, e.source.value)
    requires Balance(b.ledger, e.card) + e.amount >= 0
    ensures Bounded(Post(b, e))
  {
    PostKeepsEntries(b, e);
    forall c | 0 <= c < |b.cards|
      ensures 0 <= Balance(b.ledger + [e], c) && 0 <= ExpiredOn(b.ledger + [e], c)
      ensures Balance(b.ledger + [e], c) + Spent(b.ledger + [e], c, |b.ledger| + 1) + ExpiredOn(b.ledger + [e], c)
              == b.cards[c].original {
      SumsAfter(b.ledger, e, c, 0);
      CardAfter(b.ledger, e, c);
    }
  }

  /** The accounts after a card is issued: the new card's, and each older one's. */
  lemma IssueBalances(b: Books, issued: Card, e: Entry, c: nat)
    requires Booked(b) && Bounded(b) && issued.original > 0 && c <= |b.cards|
    requires e.card == |b.cards| && e.kind == Kind.Issue && e.amount == issued.original && e.source.None?
    ensures var after := b.ledger + [e];
            && 0 <= Balance(after, c) && 0 <= ExpiredOn(after, c)
            && Balance(after, c) + Spent(after, c, |after|) + ExpiredOn(after, c) == (b.cards + [issued])[c].original
  {
    SumsAfter(b.ledger, e, c, 0);
    CardAfter(b.ledger, e, c);
    if c == |b.cards| { UnusedCardIsEmpty(b.ledger, c, |b.ledger|); }
  }

  lemma IssueKeepsBounded(b: Books, issued: Card, key: Key)
    requires Booked(b) && Bounded(b) && issued.original > 0 && !UsedKey(b.ledger, key)
    ensures Bounded(Post(b.(cards := b.cards + [issued]), Entry(|b.cards|, Issue, issued.original, None, key)))
  {
    var e := Entry(|b.cards|, Issue, issued.original, None, key);
    PostKeepsEntries(b, e);
    forall c | 0 <= c <= |b.cards|
      ensures 0 <= Balance(b.ledger + [e], c) && 0 <= ExpiredOn(b.ledger + [e], c)
      ensures Balance(b.ledger + [e], c) + Spent(b.ledger + [e], c, |b.ledger| + 1) + ExpiredOn(b.ledger + [e], c)
              == (b.cards + [issued])[c].original {
      IssueBalances(b, issued, e, c);
    }
  }

  lemma RedeemKeepsBounded(b: Books, card: nat, amount: int, key: Key)
    requires Bounded(b) && Enabled(b, RedeemBatch(card, amount, key))
    requires Balance(b.ledger, card) - amount >= 0 && !UsedKey(b.ledger, key)
    ensures Bounded(Post(b, Entry(card, Redeem, -amount, None, key)))
  {
    PostKeepsBounded(b, Entry(card, Redeem, -amount, None, key));
  }

  lemma RefundKeepsBounded(b: Books, card: nat, original: nat, amount: int, key: Key)
    requires Bounded(b) && Enabled(b, RefundBatch(card, original, amount, key))
    requires amount <= -b.ledger[original].amount - Refunded(b.ledger, original) && !UsedKey(b.ledger, key)
    ensures Bounded(Post(b, Entry(card, Refund, amount, Some(original), key)))
  {
    PostKeepsBounded(b, Entry(card, Refund, amount, Some(original), key));
  }

  lemma ExpiryKeepsBounded(b: Books, card: nat, planned: int, day: int)
    requires Bounded(b) && Enabled(b, ExpireInsert(card, planned, day)) && ExpiryFits(b, card, planned, day)
    ensures Bounded(Post(b, Entry(card, Expiry, -planned, None, Daily(card, day))))
  {
    PostKeepsBounded(b, Entry(card, Expiry, -planned, None, Daily(card, day)));
  }

  lemma StatusKeepsBounded(b: Books, card: nat, s: Status)
    requires Bounded(b) && card < |b.cards|
    ensures Bounded(WithStatus(b, card, s))
  {
  }

  /** Which row a step writes is decided by its guard; without one nothing happens to the ledger. */
  lemma RowStepKeepsBounded(b: Books, s: Step)
    requires Booked(b) && Bounded(b) && Enabled(b, s) && (s.IssueBatch? || s.RedeemBatch? || s.RefundBatch?)
    ensures Bounded(Apply(b, s))
  {
    match s
    case IssueBatch(issued, key) => if !UsedKey(b.ledger, key) { IssueKeepsBounded(b, issued, key); }
    case RedeemBatch(card, amount, key) =>
      if Balance(b.ledger, card) - amount >= 0 && !UsedKey(b.ledger, key) { RedeemKeepsBounded(b, card, amount, key); }
    case RefundBatch(card, original, amount, key) =>
      if amount <= -b.ledger[original].amount - Refunded(b.ledger, original) && !UsedKey(b.ledger, key) {
        RefundKeepsBounded(b, card, original, amount, key);
      }
  }

  lemma StepKeepsBounded(b: Books, s: Step)
    requires Booked(b) && Bounded(b) && Enabled(b, s)
    ensures Bounded(Apply(b, s))
  {
    match s
    case RedeemStatus(card) => StatusKeepsBounded(b, card, Redeemed);
    case RefundStatus(card) => StatusKeepsBounded(b, card, Active);
    case ExpireInsert(card, planned, day) =>
      if ExpiryFits(b, card, planned, day) { ExpiryKeepsBounded(b, card, planned, day); }
    case ExpireStatus(card) => StatusKeepsBounded(b, card, Expired);
    case _ => RowStepKeepsBounded(b, s);
  }

  lemma {:induction false} SpentIsNonNegative(b: Books, card: nat, n: nat)
    requires Bounded(b) && n <= |b.ledger|
    ensures Spent(b.ledger, card, n) >= 0
  {
    if n > 0 { SpentIsNonNegative(b, card, n - 1); }
  }

  // --- Runs -------------------------------------------------------------------------------------

  ghost predicate IsRun(states: seq<Books>, steps: seq<Step>) {
    && |states| == |steps| + 1 && states[0] == Books([], [], [], [])
    && forall i {:trigger steps[i]} :: 0 <= i < |steps| ==>
         Enabled(states[i], steps[i]) && states[i + 1] == Apply(states[i], steps[i])
  }

  lemma {:induction false} RunKeeps(states: seq<Books>, steps: seq<Step>, i: nat)
    requires IsRun(states, steps) && i <= |steps|
    ensures Booked(states[i]) && Bounded(states[i])
  {
    if i > 0 {
      RunKeeps(states, steps, i - 1);
      StepKeepsBooked(states[i - 1], steps[i - 1]);
      StepKeepsBounded(states[i - 1], steps[i - 1]);
    }
  }

  /** In every interleaving of issues, redemptions, refunds and expiries, an expiry planned on an old
      balance included: a card's balance lies
      between nothing and its issued value, and the refunds of one redemption never exceed it. */
  lemma CardBounds(states: seq<Books>, steps: seq<Step>, i: nat, card: nat, r: nat)
    requires IsRun(states, steps) && i <= |steps|
    ensures var b := states[i];
            && (card < |b.cards| ==> 0 <= Balance(b.ledger, card) <= b.cards[card].original)
            && (r < |b.ledger| && b.ledger[r].kind == Redeem ==> 0 <= Refunded(b.ledger, r) <= -b.ledger[r].amount)
  {
    RunKeeps(states, steps, i);
    SpentIsNonNegative(states[i], card, |states[i].ledger|);
  }

  // --- The journal reconciles ---------------------------------------------------------------------

  lemma {:induction false} BookedJournalsAre(ledger: seq<Entry>)
    ensures forall j :: j in BookedJournals(ledger) ==>
              j.posted && j.source < |ledger| && ledger[j.source].kind != Expiry
    ensures forall i :: 0 <= i < |ledger| && ledger[i].kind != Expiry ==> Journal(i, true) in BookedJournals(ledger)
    ensures forall m, n :: 0 <= m < n < |BookedJournals(ledger)| ==>
              BookedJournals(ledger)[m].source < BookedJournals(ledger)[n].source
  {
    if ledger != [] { BookedJournalsAre(ledger[..|ledger| - 1]); }
  }

  /** Lines of one journal entry. */
  function LinesIn(lines: seq<Line>, journal: nat): seq<Line> {
    if lines == [] then []
    else
      LinesIn(lines[..|lines| - 1], journal)
      + if lines[|lines| - 1].journal == journal then [lines[|lines| - 1]] else []
  }

  lemma {:induction false} LinesInConcat(a: seq<Line>, b: seq<Line>, journal: nat)
    ensures LinesIn(a + b, journal) == LinesIn(a, journal) + LinesIn(b, journal)
  {
    if b == [] {
      assert a + b == a;
    } else {
      LinesInConcat(a, b[..|b| - 1], journal);
      assert (a + b)[..|a + b| - 1] == a + b[..|b| - 1];
    }
  }

  function Debits(lines: seq<Line>): int {
    if lines == [] then 0 else Debits(lines[..|lines| - 1]) + lines[|lines| - 1].debit
  }

  function Credits(lines: seq<Line>): int {
    if lines == [] then 0 else Credits(lines[..|lines| - 1]) + lines[|lines| - 1].credit
  }

  /** The sums over a journal entry's two lines. */
  lemma PairSums(a: Line, b: Line, journal: nat, account: Id)
    ensures LinesIn([a, b], journal)
            == (if a.journal == journal then [a] else []) + (if b.journal == journal then [b] else [])
    ensures Debits([a, b]) == a.debit + b.debit && Credits([a, b]) == a.credit + b.credit
    ensures NetCredit([a, b], account)
            == (if a.account == account then a.credit - a.debit else 0)
              + (if b.account == account then b.credit - b.debit else 0)
  {
    assert [a][..0] == [] && [a, b][..1] == [a];
    assert LinesIn([a], journal) == if a.journal == journal then [a] else [];
    assert Debits([a]) == a.debit && Credits([a]) == a.credit;
    assert NetCredit([a], account) == if a.account == account then a.credit - a.debit else 0;
  }

  lemma OwnLines(card: Card, n: nat, e: Entry, row: nat)
    ensures LinesIn(LinesOf(card, n, e), row) == if row == n then LinesOf(card, n, e) else []
  {
    var last := LinesOf(card, n, e);
    if last != [] { PairSums(last[0], last[1], row, 0); }
  }

  lemma {:induction false} BookedLinesOf(cards: seq<Card>, ledger: seq<Entry>, row: nat)
    requires KnownCards(cards, ledger)
    ensures LinesIn(BookedLines(cards, ledger), row)
            == if row < |ledger| then LinesOf(cards[ledger[row].card], row, ledger[row]) else []
  {
    if ledger != [] {
      var n := |ledger| - 1;
      var last := LinesOf(cards[ledger[n].card], n, ledger[n]);
      var before := BookedLines(cards, ledger[..n]);
      BookedLinesOf(cards, ledger[..n], row);
      LinesInConcat(before, last, row);
      OwnLines(cards[ledger[n].card], n, ledger[n], row);
      assert BookedLines(cards, ledger) == before + last;
    }
  }

  /** Every ISSUE, REDEEM or REFUND row has exactly one journal entry, posted and balanced on
      positive amounts of the row's value; no other journal entry exists. */
  lemma EveryRowIsBookedOnce(states: seq<Books>, steps: seq<Step>, i: nat, row: nat)
    requires IsRun(states, steps) && i <= |steps| && row < |states[i].ledger|
    ensures var b := states[i]; var e := b.ledger[row]; var mine := LinesIn(b.lines, row);
            && (forall m, n :: 0 <= m < n < |b.journals| ==> b.journals[m].source != b.journals[n].source)
            && (forall j :: j in b.journals ==> j.posted && j.source < |b.ledger| && b.ledger[j.source].kind != Expiry)
            && (e.kind != Expiry <==> Journal(row, true) in b.journals)
            && (if e.kind == Expiry then mine == []
                else |mine| == 2 && Debits(mine) == Credits(mine) == (if e.amount < 0 then -e.amount else e.amount) > 0)
  {
    RunKeeps(states, steps, i);
    var b := states[i];
    BookedJournalsAre(b.ledger);
    BookedLinesOf(b.cards, b.ledger, row);
    var mine := LinesIn(b.lines, row);
    assert EntryOk(b.ledger, row);
    if b.ledger[row].kind != Expiry { PairSums(mine[0], mine[1], row, 0); }
  }

  lemma {:induction false} NetCreditConcat(a: seq<Line>, b: seq<Line>, account: Id)
    ensures NetCredit(a + b, account) == NetCredit(a, account) + NetCredit(b, account)
  {
    if b == [] {
      assert a + b == a;
    } else {
      NetCreditConcat(a, b[..|b| - 1], account);
      assert (a + b)[..|a + b| - 1] == a + b[..|b| - 1];
    }
  }

  /** The account is used for liabilities only. */
  predicate LiabilityOnly(cards: seq<Card>, account: Id) {
    forall c :: 0 <= c < |cards| ==> cards[c].collection != account && cards[c].redemption != account
  }

  lemma NetCreditOfRow(card: Card, row: nat, e: Entry, account: Id)
    requires card.collection != account && card.redemption != account
    ensures NetCredit(LinesOf(card, row, e), account)
            == if card.liability == account && e.kind != Expiry then e.amount else 0
  {
    var l := LinesOf(card, row, e);
    if e.kind != Expiry { PairSums(l[0], l[1], row, account); }
  }

  lemma {:induction false} OwedAfter(cards: seq<Card>, ledger: seq<Entry>, e: Entry, account: Id, n: nat)
    requires n <= |cards| && e.card < |cards|
    ensures Owed(cards, ledger + [e], account, n)
            == Owed(cards, ledger, account, n)
               + if e.card < n && cards[e.card].liability == account && e.kind != Expiry then e.amount else 0
  {
    if n > 0 {
      OwedAfter(cards, ledger, e, account, n - 1);
      SumsAfter(ledger, e, n - 1, 0);
    }
  }

  lemma {:induction false} NothingOwed(cards: seq<Card>, account: Id, n: nat)
    requires n <= |cards|
    ensures Owed(cards, [], account, n) == 0
  {
    if n > 0 { NothingOwed(cards, account, n - 1); }
  }

  lemma {:induction false} BookedReconciles(cards: seq<Card>, ledger: seq<Entry>, account: Id)
    requires KnownCards(cards, ledger) && LiabilityOnly(cards, account)
    ensures NetCredit(BookedLines(cards, ledger), account) == Owed(cards, ledger, account, |cards|)
  {
    if ledger == [] {
      NothingOwed(cards, account, |cards|);
    } else {
      var n := |ledger| - 1;
      var e := ledger[n];
      BookedReconciles(cards, ledger[..n], account);
      NetCreditConcat(BookedLines(cards, ledger[..n]), LinesOf(cards[e.card], n, e), account);
      NetCreditOfRow(cards[e.card], n, e, account);
      OwedAfter(cards, ledger[..n], e, account, |cards|);
      assert ledger == ledger[..n] + [e];
    }
  }

  /** The books reconcile in every run: an account used only as a liability has a net credit equal
      to the balances of the cards it stands for plus all value expired on them. */
  lemma LiabilityReconciles(states: seq<Books>, steps: seq<Step>, i: nat, account: Id)
    requires IsRun(states, steps) && i <= |steps| && LiabilityOnly(states[i].cards, account)
    ensures var b := states[i]; NetCredit(b.lines, account) == Owed(b.cards, b.ledger, account, |b.cards|)
  {
    RunKeeps(states, steps, i);
    BookedReconciles(states[i].cards, states[i].ledger, account);
  }

  // --- The other accounts -------------------------------------------------------------------------

  /** The amounts of a card's rows of one kind. */
  function Total(ledger: seq<Entry>, card: nat, kind: Kind): int {
    if ledger == [] then 0
    else
      var e := ledger[|ledger| - 1];
      Total(ledger[..|ledger| - 1], card, kind) + if e.card == card && e.kind == kind then e.amount else 0
  }

  lemma TotalAfter(ledger: seq<Entry>, e: Entry, card: nat, kind: Kind)
    ensures Total(ledger + [e], card, kind)
            == Total(ledger, card, kind) + if e.card == card && e.kind == kind then e.amount else 0
  {
    assert (ledger + [e])[..|ledger|] == ledger;
  }

  /** Value redeemed minus value refunded on the cards, among the first `n`, that redeem into `account`;
      redemptions are recorded as negative amounts. */
  function RedeemedInto(cards: seq<Card>, ledger: seq<Entry>, account: Id, n: nat): int
    requires n <= |cards|
  {
    if n == 0 then 0
    else
      RedeemedInto(cards, ledger, account, n - 1)
      + if cards[n - 1].redemption == account
        then -Total(ledger, n - 1, Kind.Redeem) - Total(ledger, n - 1, Kind.Refund) else 0
  }

  /** Value issued on the cards, among the first `n`, that are paid for into `account`. */
  function CollectedInto(cards: seq<Card>, ledger: seq<Entry>, account: Id, n: nat): int
    requires n <= |cards|
  {
    if n == 0 then 0
    else
      CollectedInto(cards, ledger, account, n - 1)
      + if cards[n - 1].collection == account then Total(ledger, n - 1, Kind.Issue) else 0
  }

  predicate RedemptionOnly(cards: seq<Card>, account: Id) {
    forall c :: 0 <= c < |cards| ==> cards[c].collection != account && cards[c].liability != account
  }

  predicate CollectionOnly(cards: seq<Card>, account: Id) {
    forall c :: 0 <= c < |cards| ==> cards[c].redemption != account && cards[c].liability != account
  }

  lemma {:induction false} RedeemedAfter(cards: seq<Card>, ledger: seq<Entry>, e: Entry, account: Id, n: nat)
    requires n <= |cards| && e.card < |cards|
    ensures RedeemedInto(cards, ledger + [e], account, n)
            == RedeemedInto(cards, ledger, account, n)
               - if e.card < n && cards[e.card].redemption == account
                    && (e.kind == Kind.Redeem || e.kind == Kind.Refund) then e.amount else 0
  {
    if n > 0 {
      RedeemedAfter(cards, ledger, e, account, n - 1);
      TotalAfter(ledger, e, n - 1, Kind.Redeem);
      TotalAfter(ledger, e, n - 1, Kind.Refund);
    }
  }

  lemma {:induction false} CollectedAfter(cards: seq<Card>, ledger: seq<Entry>, e: Entry, account: Id, n: nat)
    requires n <= |cards| && e.card < |cards|
    ensures CollectedInto(cards, ledger + [e], account, n)
            == CollectedInto(cards, ledger, account, n)
               + if e.card < n && cards[e.card].collection == account && e.kind == Kind.Issue then e.amount else 0
  {
    if n > 0 {
      CollectedAfter(cards, ledger, e, account, n - 1);
      TotalAfter(ledger, e, n - 1, Kind.Issue);
    }
  }

  lemma {:induction false} NothingMoved(cards: seq<Card>, account: Id, n: nat)
    requires n <= |cards|
    ensures RedeemedInto(cards, [], account, n) == 0 && CollectedInto(cards, [], account, n) == 0
  {
    if n > 0 { NothingMoved(cards, account, n - 1); }
  }

  /** The credit of one row on an account that plays no part in liabilities. */
  lemma NetCreditElsewhere(card: Card, row: nat, e: Entry, account: Id)
    requires card.liability != account
    ensures card.collection != account ==>
              NetCredit(LinesOf(card, row, e), account)
              == if card.redemption == account && (e.kind == Kind.Redeem || e.kind == Kind.Refund) then -e.amount else 0
    ensures card.redemption != account ==>
              NetCredit(LinesOf(card, row, e), account)
              == if card.collection == account && e.kind == Kind.Issue then -e.amount else 0
  {
    var l := LinesOf(card, row, e);
    if e.kind != Expiry { PairSums(l[0], l[1], row, account); }
  }

  lemma {:induction false} BookedRedemptions(cards: seq<Card>, ledger: seq<Entry>, account: Id)
    requires KnownCards(cards, ledger) && RedemptionOnly(cards, account)
    ensures NetCredit(BookedLines(cards, ledger), account) == RedeemedInto(cards, ledger, account, |cards|)
  {
    if ledger == [] {
      NothingMoved(cards, account, |cards|);
    } else {
      var n := |ledger| - 1;
      var e := ledger[n];
      BookedRedemptions(cards, ledger[..n], account);
      NetCreditConcat(BookedLines(cards, ledger[..n]), LinesOf(cards[e.card], n, e), account);
      NetCreditElsewhere(cards[e.card], n, e, account);
      RedeemedAfter(cards, ledger[..n], e, account, |cards|);
      assert ledger == ledger[..n] + [e];
    }
  }

  lemma {:induction false} BookedCollections(cards: seq<Card>, ledger: seq<Entry>, account: Id)
    requires KnownCards(cards, ledger) && CollectionOnly(cards, account)
    ensures NetCredit(BookedLines(cards, ledger), account) == -CollectedInto(cards, ledger, account, |cards|)
  {
    if ledger == [] {
      NothingMoved(cards, account, |cards|);
    } else {
      var n := |ledger| - 1;
      var e := ledger[n];
      BookedCollections(cards, ledger[..n], account);
      NetCreditConcat(BookedLines(cards, ledger[..n]), LinesOf(cards[e.card], n, e), account);
      NetCreditElsewhere(cards[e.card], n, e, account);
      CollectedAfter(cards, ledger[..n], e, account, |cards|);
      assert ledger == ledger[..n] + [e];
    }
  }

  /** In every run an account used only for redemption has been credited, on balance, with the value
      redeemed minus the value refunded on its cards. */
  lemma RedemptionReconciles(states: seq<Books>, steps: seq<Step>, i: nat, account: Id)
    requires IsRun(states, steps) && i <= |steps| && RedemptionOnly(states[i].cards, account)
    ensures var b := states[i]; NetCredit(b.lines, account) == RedeemedInto(b.cards, b.ledger, account, |b.cards|)
  {
    RunKeeps(states, steps, i);
    BookedRedemptions(states[i].cards, states[i].ledger, account);
  }

  /** In every run an account used only for collection has been debited with the value issued on its
      cards, which is what the cards were issued for. */
  lemma CollectionReconciles(states: seq<Books>, steps: seq<Step>, i: nat, account: Id, card: nat)
    requires IsRun(states, steps) && i <= |steps| && CollectionOnly(states[i].cards, account)
    ensures var b := states[i];
            && NetCredit(b.lines, account) == -CollectedInto(b.cards, b.ledger, account, |b.cards|)
            && (card < |b.cards| ==> Total(b.ledger, card, Kind.Issue) == b.cards[card].original)
  {
    RunKeeps(states, steps, i);
    var b := states[i];
    BookedCollections(b.cards, b.ledger, account);
    if card < |b.cards| { IssuedIsAccountedFor(b.ledger, card); }
  }

  /** Balance, value spent and value expired add up to the value issued. */
  lemma {:induction false} IssuedIsAccountedFor(ledger: seq<Entry>, card: nat)
    requires forall i :: 0 <= i < |ledger| ==> EntryOk(ledger, i)
    ensures Balance(ledger, card) + Spent(ledger, card, |ledger|) + ExpiredOn(ledger, card)
            == Total(ledger, card, Kind.Issue)
  {
    if ledger != [] {
      var n := |ledger| - 1;
      var before := ledger[..n];
      assert ledger == before + [ledger[n]];
      forall i | 0 <= i < n ensures EntryOk(before, i) { assert EntryOk(ledger, i); }
      IssuedIsAccountedFor(before, card);
      CardAfter(before, ledger[n], card);
      TotalAfter(before, ledger[n], card, Kind.Issue);
    }
  }

  // --- Calls -------------------------------------------------------------------------------------

  /** What every completed call leaves behind. */
  ghost predicate Sound(b: Books) {
    Booked(b) && Bounded(b) && Settled(b)
  }

  lemma StatusFollows(b: Books, e: Entry, s: Status)
    requires Settled(b) && e.card < |b.cards|
    requires s == Active <==> Balance(b.ledger + [e], e.card) > 0
    ensures Settled(WithStatus(Post(b, e), e.card, s))
  {
    forall c | 0 <= c < |b.cards|
      ensures Balance(b.ledger + [e], c) == Balance(b.ledger, c) + if e.card == c then e.amount else 0
    {
      SumsAfter(b.ledger, e, c, 0);
    }
  }

  lemma NewCardSettled(b: Books, issued: Card, key: Key)
    requires Booked(b) && Settled(b) && issued.original > 0 && issued.status == Active
    ensures Settled(Post(b.(cards := b.cards + [issued]), Entry(|b.cards|, Issue, issued.original, None, key)))
  {
    UnusedCardIsEmpty(b.ledger, |b.cards|, |b.ledger|);
    forall c | 0 <= c <= |b.cards| { SumsAfter(b.ledger, Entry(|b.cards|, Issue, issued.original, None, key), c, 0); }
  }

  lemma IssueIsSound(b: Books, issued: Card, key: Key)
    requires Sound(b) && Enabled(b, IssueBatch(issued, key))
    ensures Sound(Apply(b, IssueBatch(issued, key)))
  {
    StepKeepsBooked(b, IssueBatch(issued, key));
    StepKeepsBounded(b, IssueBatch(issued, key));
    NewCardSettled(b, issued, key);
  }

  /** A row, and the status that follows the balance after it. */
  lemma RowThenStatus(b: Books, e: Entry, s: Status)
    requires e.card < |b.cards| && Settled(b) && Booked(Post(b, e)) && Bounded(Post(b, e))
    requires s == Active <==> Balance(b.ledger + [e], e.card) > 0
    ensures Sound(WithStatus(Post(b, e), e.card, s))
  {
    StatusKeepsBooked(Post(b, e), e.card, s);
    StatusFollows(b, e, s);
  }

  /** What a redemption that is inserted comes to, with the status update after it. */
  lemma RedeemForm(b: Books, card: nat, amount: int, key: Key)
    requires Enabled(b, RedeemBatch(card, amount, key)) && b.cards[card].status == Active
    requires amount <= Balance(b.ledger, card) && !UsedKey(b.ledger, key)
    ensures var after := Post(b, Entry(card, Redeem, -amount, None, key));
            && Apply(b, RedeemBatch(card, amount, key)) == after
            && Apply(after, RedeemStatus(card))
                 == WithStatus(after, card, if Balance(after.ledger, card) == 0 then Redeemed else Active)
  {
    var after := Post(b, Entry(card, Redeem, -amount, None, key));
    assert WithStatus(after, card, Active) == after;
  }

  /** A redemption and the status update after it. */
  lemma RedeemIsSound(b: Books, card: nat, amount: int, key: Key)
    requires Sound(b) && Enabled(b, RedeemBatch(card, amount, key)) && b.cards[card].status == Active
    requires amount <= Balance(b.ledger, card) && !UsedKey(b.ledger, key)
    ensures Sound(Apply(Apply(b, RedeemBatch(card, amount, key)), RedeemStatus(card)))
  {
    var e := Entry(card, Redeem, -amount, None, key);
    PostKeepsBooked(b, e);
    RedeemKeepsBounded(b, card, amount, key);
    RedeemForm(b, card, amount, key);
    SumsAfter(b.ledger, e, card, 0);
    RowThenStatus(b, e, if Balance(b.ledger + [e], card) == 0 then Redeemed else Active);
  }

  /** A refund batch writes its row and journal, or nothing at all. */
  lemma RefundForm(b: Books, card: nat, original: nat, amount: int, key: Key)
    requires Enabled(b, RefundBatch(card, original, amount, key))
    ensures Apply(b, RefundBatch(card, original, amount, key))
            == if amount <= -b.ledger[original].amount - Refunded(b.ledger, original) && !UsedKey(b.ledger, key)
               then Post(b, Entry(card, Refund, amount, Some(original), key)) else b
    ensures var after := Apply(b, RefundBatch(card, original, amount, key));
            card < |after.cards| && Apply(after, RefundStatus(card)) == WithStatus(after, card, Active)
  {
  }

  /** A refund and the status update after it. */
  lemma RefundIsSound(b: Books, card: nat, original: nat, amount: int, key: Key)
    requires Sound(b) && Enabled(b, RefundBatch(card, original, amount, key))
    requires amount <= -b.ledger[original].amount - Refunded(b.ledger, original) && !UsedKey(b.ledger, key)
    ensures Sound(Apply(Apply(b, RefundBatch(card, original, amount, key)), RefundStatus(card)))
  {
    var e := Entry(card, Refund, amount, Some(original), key);
    PostKeepsBooked(b, e);
    RefundKeepsBounded(b, card, original, amount, key);
    SumsAfter(b.ledger, e, card, 0);
    RowThenStatus(b, e, Active);
  }

  lemma ExpiredIsSound(b: Books, card: nat, day: int)
    requires Sound(b) && card < |b.cards| && Balance(b.ledger, card) > 0 && !UsedKey(b.ledger, Daily(card, day))
    ensures Sound(WithStatus(Post(b, Entry(card, Expiry, -Balance(b.ledger, card), None, Daily(card, day))), card,
                             Expired))
  {
    var e := Entry(card, Expiry, -Balance(b.ledger, card), None, Daily(card, day));
    PostKeepsBooked(b, e);
    PostKeepsBounded(b, e);
    SumsAfter(b.ledger, e, card, 0);
    RowThenStatus(b, e, Expired);
  }

  /** One card expired by a call that runs alone: the row, then the status. */
  function ExpireNow(b: Books, card: nat, asOf: Time, day: int): Books
    requires card < |b.cards|
  {
    if Expirable(b, card, asOf) && !UsedKey(b.ledger, Daily(card, day))
    then Apply(Apply(b, ExpireInsert(card, Balance(b.ledger, card), day)), ExpireStatus(card)) else b
  }

  lemma ExpiryForm(b: Books, card: nat, asOf: Time, day: int)
    requires card < |b.cards|
    ensures ExpireNow(b, card, asOf, day)
            == if Expirable(b, card, asOf) && !UsedKey(b.ledger, Daily(card, day))
               then WithStatus(Post(b, Entry(card, Expiry, -Balance(b.ledger, card), None, Daily(card, day))), card,
                               Expired) else b
  {
  }

  lemma ExpiryIsSound(b: Books, card: nat, asOf: Time, day: int)
    requires Sound(b) && card < |b.cards|
    ensures Sound(ExpireNow(b, card, asOf, day))
  {
    ExpiryForm(b, card, asOf, day);
    if Expirable(b, card, asOf) && !UsedKey(b.ledger, Daily(card, day)) { ExpiredIsSound(b, card, day); }
  }

  // --- What the batches come to ---------------------------------------------------------------------

  /** One card's balance moved by `move`, no other's. */
  ghost predicate BalanceMoved(before: seq<Entry>, after: seq<Entry>, card: nat, move: int) {
    forall c: nat :: Balance(after, c) == Balance(before, c) + if c == card then move else 0
  }

  /** The journal written for the last ledger row: `amount` from the debit to the credit account. */
  predicate BookedLast(b: Books, debit: Id, credit: Id, amount: int) {
    && |b.ledger| > 0 && Journal(|b.ledger| - 1, true) in b.journals
    && LinesIn(b.lines, |b.ledger| - 1)
         == [Line(|b.ledger| - 1, 1, debit, amount, 0), Line(|b.ledger| - 1, 2, credit, 0, amount)]
  }

  lemma PostMoves(b: Books, e: Entry)
    requires Booked(b) && e.card < |b.cards|
    ensures BalanceMoved(b.ledger, Post(b, e).ledger, e.card, e.amount) && UsedKey(Post(b, e).ledger, e.key)
    ensures LinesIn(Post(b, e).lines, |b.ledger|) == LinesOf(b.cards[e.card], |b.ledger|, e)
  {
    forall c: nat ensures Balance(b.ledger + [e], c) == Balance(b.ledger, c) + if c == e.card then e.amount else 0 {
      SumsAfter(b.ledger, e, c, 0);
    }
    assert (b.ledger + [e])[|b.ledger|] == e;
    PostKeepsBooked(b, e);
    BookedLinesOf(b.cards, b.ledger + [e], |b.ledger|);
  }

  lemma RedeemPosts(b: Books, card: nat, amount: int, key: Key)
    requires Booked(b) && Enabled(b, RedeemBatch(card, amount, key)) && b.cards[card].status == Active
    ensures var after := Post(b, Entry(card, Redeem, -amount, None, key));
            && BalanceMoved(b.ledger, after.ledger, card, -amount) && UsedKey(after.ledger, key)
            && BookedLast(after, b.cards[card].liability, b.cards[card].redemption, amount)
            && Apply(after, RedeemStatus(card)).cards
                 == b.cards[card := b.cards[card].(status := if Balance(b.ledger, card) == amount then Redeemed
                                                             else Active)]
  {
    PostMoves(b, Entry(card, Redeem, -amount, None, key));
    assert b.cards[card := b.cards[card].(status := Active)] == b.cards;
  }

  /** A redemption takes its amount from its card alone, if the balance covers it and the key is new, and
      moves it from the liability to the redemption account; the card ends REDEEMED at balance zero. */
  lemma RedemptionMoves(b: Books, card: nat, amount: int, key: Key)
    requires Booked(b) && Enabled(b, RedeemBatch(card, amount, key)) && b.cards[card].status == Active
    ensures var after := Apply(b, RedeemBatch(card, amount, key));
            if amount <= Balance(b.ledger, card) && !UsedKey(b.ledger, key)
            then && BalanceMoved(b.ledger, after.ledger, card, -amount) && UsedKey(after.ledger, key)
                 && BookedLast(after, b.cards[card].liability, b.cards[card].redemption, amount)
                 && Apply(after, RedeemStatus(card)).cards
                      == b.cards[card := b.cards[card].(status := if Balance(b.ledger, card) == amount then Redeemed
                                                                  else Active)]
            else after == b
  {
    if amount <= Balance(b.ledger, card) && !UsedKey(b.ledger, key) { RedeemPosts(b, card, amount, key); }
  }

  lemma RefundPosts(b: Books, card: nat, original: nat, amount: int, key: Key)
    requires Booked(b) && Enabled(b, RefundBatch(card, original, amount, key))
    ensures var after := Post(b, Entry(card, Refund, amount, Some(original), key));
            && BalanceMoved(b.ledger, after.ledger, card, amount) && UsedKey(after.ledger, key)
            && Refunded(after.ledger, original) == Refunded(b.ledger, original) + amount
            && BookedLast(after, b.cards[card].redemption, b.cards[card].liability, amount)
            && Apply(after, RefundStatus(card)).cards == b.cards[card := b.cards[card].(status := Active)]
  {
    var e := Entry(card, Refund, amount, Some(original), key);
    PostMoves(b, e);
    SumsAfter(b.ledger, e, card, original);
  }

  /** A refund gives its amount back to its card alone, if that much of the redemption is left and the key
      is new, moves it back to the liability account, and makes the card ACTIVE. */
  lemma RefundMoves(b: Books, card: nat, original: nat, amount: int, key: Key)
    requires Booked(b) && Enabled(b, RefundBatch(card, original, amount, key))
    ensures var after := Apply(b, RefundBatch(card, original, amount, key));
            if Refunded(b.ledger, original) + amount <= -b.ledger[original].amount && !UsedKey(b.ledger, key)
            then && BalanceMoved(b.ledger, after.ledger, card, amount) && UsedKey(after.ledger, key)
                 && Refunded(after.ledger, original) == Refunded(b.ledger, original) + amount
                 && BookedLast(after, b.cards[card].redemption, b.cards[card].liability, amount)
                 && Apply(after, RefundStatus(card)).cards == b.cards[card := b.cards[card].(status := Active)]
            else after == b
  {
    RefundForm(b, card, original, amount, key);
    if amount <= -b.ledger[original].amount - Refunded(b.ledger, original) && !UsedKey(b.ledger, key) {
      RefundPosts(b, card, original, amount, key);
    }
  }

  /** Issuing adds one card with its value, moved from the collection to the liability account, under a new
      key; a used key changes nothing. */
  lemma IssueMoves(b: Books, issued: Card, key: Key)
    requires Booked(b) && Enabled(b, IssueBatch(issued, key))
    ensures var after := Apply(b, IssueBatch(issued, key));
            if UsedKey(b.ledger, key) then after == b
            else && after.cards == b.cards + [issued] && UsedKey(after.ledger, key)
                 && BalanceMoved(b.ledger, after.ledger, |b.cards|, issued.original)
                 && Balance(after.ledger, |b.cards|) == issued.original
                 && BookedLast(after, issued.collection, issued.liability, issued.original)
  {
    if !UsedKey(b.ledger, key) {
      NewCardKeepsBooked(b, issued);
      PostMoves(b.(cards := b.cards + [issued]), Entry(|b.cards|, Issue, issued.original, None, key));
      UnusedCardIsEmpty(b.ledger, |b.cards|, |b.ledger|);
    }
  }

  /** An expiry takes what it planned from its card alone, if the balance still covers it and the day's key
      is new, and books nothing. */
  lemma ExpiryMoves(b: Books, card: nat, planned: int, day: int)
    requires Booked(b) && Enabled(b, ExpireInsert(card, planned, day))
    ensures var after := Apply(b, ExpireInsert(card, planned, day));
            && after.cards == b.cards && after.journals == b.journals && after.lines == b.lines
            && if planned <= Balance(b.ledger, card) && !UsedKey(b.ledger, Daily(card, day))
               then BalanceMoved(b.ledger, after.ledger, card, -planned) && UsedKey(after.ledger, Daily(card, day))
                    && ExpiredOn(after.ledger, card) == ExpiredOn(b.ledger, card) + planned
               else after == b
  {
    if ExpiryFits(b, card, planned, day) {
      var e := Entry(card, Expiry, -planned, None, Daily(card, day));
      PostMoves(b, e);
      SumsAfter(b.ledger, e, card, 0);
    }
  }

  /** A card expires, by a call that runs alone, exactly if it is ACTIVE with a balance at or after its
      expiry and was not expired before on that day; then it is EXPIRED with nothing left. */
  lemma ExpiresExactlyWhen(b: Books, card: nat, asOf: Time, day: int)
    requires Booked(b) && card < |b.cards|
    ensures var after := ExpireNow(b, card, asOf, day); var c := b.cards[card];
            if c.status == Active && c.expiresAt.Some? && c.expiresAt.value <= asOf && Balance(b.ledger, card) > 0
               && !UsedKey(b.ledger, Daily(card, day))
            then BalanceMoved(b.ledger, after.ledger, card, -Balance(b.ledger, card))
                 && after.cards == b.cards[card := c.(status := Expired)]
            else after == b
  {
    if Expirable(b, card, asOf) && !UsedKey(b.ledger, Daily(card, day)) {
      ExpiryMoves(b, card, Balance(b.ledger, card), day);
    }
  }

  /** The accounts a card books to. */
  function Roles(c: Card): set<Id> {
    {c.liability, c.collection, c.redemption}
  }

  predicate SameCurrency(c: Card, accounts: map<Id, Id>) {
    forall a :: a in Roles(c) ==> a in accounts && accounts[a] == c.currency
  }

  /** What the expiry query returns for a card, if anything: its balance. */
  function PlanFor(b: Books, card: nat, asOf: Time): Option<int>
    requires card < |b.cards|
  {
    if Expirable(b, card, asOf) then Some(Balance(b.ledger, card)) else None
  }

  /** The card and what counts for its expiry are as they were. */
  predicate SameCard(before: Books, after: Books, card: nat, day: int) {
    && card < |before.cards| && card < |after.cards| && after.cards[card] == before.cards[card]
    && Balance(after.ledger, card) == Balance(before.ledger, card)
    && UsedKey(after.ledger, Daily(card, day)) == UsedKey(before.ledger, Daily(card, day))
  }

  datatype Error = NotFound | NotEligible | Insufficient | Conflict | BadAmount

  /** A completed call: the ledger row it wrote, or the replayed one. */
  datatype Receipt = Receipt(duplicate: bool)

  class GiftCardService {
    var cards: seq<Card>
    var ledger: seq<Entry>
    var journals: seq<Journal>
    var lines: seq<Line>

    ghost function View(): Books
      reads this
    {
      Books(cards, ledger, journals, lines)
    }

    constructor ()
      ensures Sound(View()) && View() == Books([], [], [], [])
    {
      cards, ledger, journals, lines := [], [], [], [];
    }

    /** journalHeaderIfLedgerExists, journalLineIfLedgerExists twice, postJournalIfLedgerExists:
        each statement writes only if the ledger row is there. */
    method BookIfLedgerExists(row: nat, debit: Id, credit: Id, amount: int)
      modifies this`journals, this`lines
      ensures journals == old(journals) + if row < |ledger| then [Journal(row, true)] else []
      ensures lines
              == old(lines) + if row < |ledger| then [Line(row, 1, debit, amount, 0), Line(row, 2, credit, 0, amount)]
                              else []
    {
      var at := |journals|;
      if row < |ledger| { journals := journals + [Journal(row, false)]; }
      if row < |ledger| { lines := lines + [Line(row, 1, debit, amount, 0)]; }
      if row < |ledger| { lines := lines + [Line(row, 2, credit, 0, amount)]; }
      if row < |ledger| { journals := journals[at := journals[at].(posted := true)]; }
    }

    /** issueGiftCard's batch: the card, its ledger row and the journal. */
    method IssueBatched(issued: Card, key: Id)
      requires Enabled(View(), IssueBatch(issued, Request(key))) && !UsedKey(ledger, Request(key))
      modifies this
      ensures View() == Apply(old(View()), IssueBatch(issued, Request(key)))
    {
      var row := |ledger|;
      ledger := ledger + [Entry(|cards|, Kind.Issue, issued.original, None, Request(key))];
      cards := cards + [issued];
      BookIfLedgerExists(row, issued.collection, issued.liability, issued.original);
    }

    /** issueGiftCard; `accounts` are the active accounts with their currencies. */
    method Issue(issued: Card, accounts: map<Id, Id>, key: Id) returns (r: Result<Receipt, Error>)
      requires Sound(View()) && issued.status == Active
      modifies this
      ensures Sound(View())
      ensures if issued.original <= 0 then r == Err(BadAmount) && View() == old(View())
              else if !(Roles(issued) <= accounts.Keys) then r == Err(NotFound) && View() == old(View())
              else if !SameCurrency(issued, accounts) then r == Err(NotEligible) && View() == old(View())
              else (&& r == Ok(Receipt(UsedKey(old(ledger), Request(key))))
                    && View() == Apply(old(View()), IssueBatch(issued, Request(key))))
    {
      if issued.original <= 0 { return Err(BadAmount); }
      if !(Roles(issued) <= accounts.Keys) { return Err(NotFound); }
      if !SameCurrency(issued, accounts) { return Err(NotEligible); }
      IssueIsSound(View(), issued, Request(key));
      if UsedKey(ledger, Request(key)) { return Ok(Receipt(true)); }
      IssueBatched(issued, key);
      r := Ok(Receipt(false));
    }

    /** redeemGiftCard's batch: the conditional insert with its journal. */
    method RedeemBatched(card: nat, amount: int, key: Id) returns (inserted: bool)
      requires card < |cards| && amount > 0
      modifies this`ledger, this`journals, this`lines
      ensures View() == Apply(old(View()), RedeemBatch(card, amount, Request(key)))
      ensures inserted == (Balance(old(ledger), card) - amount >= 0 && !UsedKey(old(ledger), Request(key)))
    {
      var row := |ledger|;
      inserted := Balance(ledger, card) - amount >= 0 && !UsedKey(ledger, Request(key));
      if inserted { ledger := ledger + [Entry(card, Kind.Redeem, -amount, None, Request(key))]; }
      BookIfLedgerExists(row, cards[card].liability, cards[card].redemption, amount);
    }

    /** redeemGiftCard: the batch, then the status that follows. */
    method Redeem(card: nat, amount: int, currency: Id, now: Time, key: Id) returns (r: Result<Receipt, Error>)
      requires Sound(View())
      modifies this
      ensures Sound(View())
      ensures var before := old(View()); var s := RedeemBatch(card, amount, Request(key));
              match r
              case Ok(Receipt(false)) =>
                && card < |before.cards| && before.cards[card].status == Active
                && before.cards[card].currency == currency
                && (before.cards[card].expiresAt.Some? ==> now < before.cards[card].expiresAt.value)
                && 0 < amount <= Balance(before.ledger, card) && !UsedKey(before.ledger, Request(key))
                && View() == Apply(Apply(before, s), RedeemStatus(card))
              case Ok(Receipt(true)) => View() == before && UsedKey(before.ledger, Request(key))
              case Err(BadAmount) => View() == before && amount <= 0
              case Err(NotFound) => View() == before && card >= |before.cards|
              case Err(NotEligible) => View() == before && card < |before.cards|
                && (|| before.cards[card].currency != currency || before.cards[card].status != Active
                    || (before.cards[card].expiresAt.Some? && before.cards[card].expiresAt.value <= now))
              case Err(Insufficient) => View() == before && card < |before.cards|
                && Balance(before.ledger, card) < amount && !UsedKey(before.ledger, Request(key))
              case Err(Conflict) => false
    {
      if amount <= 0 { return Err(BadAmount); }
      if card >= |cards| { return Err(NotFound); }
      if cards[card].currency != currency { return Err(NotEligible); }
      if cards[card].status != Active || (cards[card].expiresAt.Some? && cards[card].expiresAt.value <= now) {
        return Err(NotEligible);
      }
      r := RedeemActive(card, amount, key);
    }

    /** The batch of an accepted redemption, then the status that follows. */
    method RedeemActive(card: nat, amount: int, key: Id) returns (r: Result<Receipt, Error>)
      requires Sound(View()) && card < |cards| && cards[card].status == Active && amount > 0
      modifies this
      ensures Sound(View())
      ensures var before := old(View());
              if UsedKey(before.ledger, Request(key)) then r == Ok(Receipt(true)) && View() == before
              else if Balance(before.ledger, card) < amount then r == Err(Insufficient) && View() == before
              else (&& r == Ok(Receipt(false))
                    && View() == Apply(Apply(before, RedeemBatch(card, amount, Request(key))), RedeemStatus(card)))
    {
      var inserted := RedeemBatched(card, amount, key);
      if !inserted { return if UsedKey(ledger, Request(key)) then Ok(Receipt(true)) else Err(Insufficient); }
      RedeemIsSound(old(View()), card, amount, Request(key));
      if Balance(ledger, card) == 0 { cards := cards[card := cards[card].(status := Status.Redeemed)]; }
      r := Ok(Receipt(false));
    }

    /** refundGiftCardValue's batch. */
    method RefundBatched(card: nat, original: nat, amount: int, key: Id) returns (inserted: bool)
      requires Enabled(View(), RefundBatch(card, original, amount, Request(key)))
      modifies this`ledger, this`journals, this`lines
      ensures View() == Apply(old(View()), RefundBatch(card, original, amount, Request(key)))
      ensures inserted
              == (amount <= -old(ledger)[original].amount - Refunded(old(ledger), original)
                  && !UsedKey(old(ledger), Request(key)))
    {
      var row := |ledger|;
      inserted := amount <= -ledger[original].amount - Refunded(ledger, original) && !UsedKey(ledger, Request(key));
      if inserted { ledger := ledger + [Entry(card, Kind.Refund, amount, Some(original), Request(key))]; }
      BookIfLedgerExists(row, cards[card].redemption, cards[card].liability, amount);
    }

    /** refundGiftCardValue: at most what is left of the redemption, and the card is ACTIVE again. */
    method Refund(card: nat, original: nat, amount: int, currency: Id, key: Id) returns (r: Result<Receipt, Error>)
      requires Sound(View())
      modifies this
      ensures Sound(View())
      ensures var before := old(View()); var s := RefundBatch(card, original, amount, Request(key));
              match r
              case Ok(Receipt(false)) =>
                && Enabled(before, s) && !UsedKey(before.ledger, Request(key))
                && Refunded(before.ledger, original) + amount <= -before.ledger[original].amount
                && View() == Apply(Apply(before, s), RefundStatus(card))
              case Ok(Receipt(true)) => View() == before && UsedKey(before.ledger, Request(key))
              case Err(BadAmount) => View() == before && amount <= 0
              case Err(NotFound) => View() == before && card >= |before.cards|
              case Err(NotEligible) => View() == before && card < |before.cards|
                && (|| before.cards[card].currency != currency || original >= |before.ledger|
                    || before.ledger[original].card != card || before.ledger[original].kind != Kind.Redeem
                    || amount > -before.ledger[original].amount)
              case Err(Insufficient) => false
              case Err(Conflict) =>
                && View() == before && original < |before.ledger| && !UsedKey(before.ledger, Request(key))
                && Refunded(before.ledger, original) + amount > -before.ledger[original].amount
    {
      if amount <= 0 { return Err(BadAmount); }
      if card >= |cards| { return Err(NotFound); }
      if cards[card].currency != currency { return Err(NotEligible); }
      if original >= |ledger| || ledger[original].card != card || ledger[original].kind != Kind.Redeem
        || amount > -ledger[original].amount {
        return Err(NotEligible);
      }
      r := RefundMatched(card, original, amount, key);
    }

    /** The batch of an accepted refund, then the status that follows. */
    method RefundMatched(card: nat, original: nat, amount: int, key: Id) returns (r: Result<Receipt, Error>)
      requires Sound(View()) && Enabled(View(), RefundBatch(card, original, amount, Request(key)))
      modifies this
      ensures Sound(View())
      ensures var before := old(View());
              if UsedKey(before.ledger, Request(key)) then r == Ok(Receipt(true)) && View() == before
              else if Refunded(before.ledger, original) + amount > -before.ledger[original].amount
              then r == Err(Conflict) && View() == before
              else
                var s := RefundBatch(card, original, amount, Request(key));
                r == Ok(Receipt(false)) && View() == Apply(Apply(before, s), RefundStatus(card))
    {
      ghost var before := View();
      var inserted := RefundBatched(card, original, amount, key);
      RefundForm(before, card, original, amount, Request(key));
      if !inserted { return if UsedKey(ledger, Request(key)) then Ok(Receipt(true)) else Err(Conflict); }
      RefundIsSound(before, card, original, amount, Request(key));
      ghost var batched := View();
      cards := cards[card := cards[card].(status := Active)];
      assert View() == WithStatus(batched, card, Active);
      r := Ok(Receipt(false));
    }

    /** The insert of one planned expiry, and the card's status after it. */
    method ExpireOne(card: nat, asOf: Time, day: int, balance: int) returns (expired: bool)
      requires card < |cards| && Expirable(View(), card, asOf) && balance == Balance(ledger, card)
      modifies this`cards, this`ledger
      ensures View() == ExpireNow(old(View()), card, asOf, day)
      ensures expired == !UsedKey(old(ledger), Daily(card, day))
    {
      expired := !UsedKey(ledger, Daily(card, day));
      if expired {
        ledger := ledger + [Entry(card, Expiry, -balance, None, Daily(card, day))];
        cards := cards[card := cards[card].(status := Status.Expired)];
      }
    }

    /** The query of expireStoredValue. */
    method PlanExpiry(asOf: Time) returns (plan: seq<Option<int>>)
      ensures |plan| == |cards| && forall c :: 0 <= c < |cards| ==> plan[c] == PlanFor(View(), c, asOf)
    {
      plan := [];
      for c := 0 to |cards|
        invariant |plan| == c && forall k :: 0 <= k < c ==> plan[k] == PlanFor(View(), k, asOf)
      {
        plan := plan + [PlanFor(Books(cards, ledger, journals, lines), c, asOf)];
      }
    }

    /** One planned card's turn. */
    method ExpirePlanned(ghost before: Books, card: nat, asOf: Time, day: int, planned: Option<int>)
      returns (expired: bool)
      requires ExpiredUpTo(before, View(), asOf, day, card) && card < |cards| && planned == PlanFor(before, card, asOf)
      modifies this`cards, this`ledger
      ensures ExpiredUpTo(before, View(), asOf, day, card + 1)
      ensures |ledger| == |old(ledger)| + if expired then 1 else 0
    {
      expired := false;
      ExpireNext(before, View(), asOf, day, card);
      if planned.Some? { expired := ExpireOne(card, asOf, day, planned.value); }
    }

    /** expireStoredValue: all cards are read first, then they are expired one by one; afterwards a
        card that is still ACTIVE past its expiry was expired once before on the same day. */
    method ExpireStoredValue(asOf: Time, day: int) returns (count: nat)
      requires Sound(View())
      modifies this
      ensures Sound(View()) && |cards| == |old(cards)| && |ledger| == |old(ledger)| + count
      ensures View() == ExpireAll(old(View()), asOf, day, |cards|)
      ensures forall c :: 0 <= c < |cards| && Expirable(View(), c, asOf) ==> UsedKey(old(ledger), Daily(c, day))
    {
      count := 0;
      ghost var before := View();
      var plan := PlanExpiry(asOf);
      NothingExpiredYet(before, asOf, day);
      for i := 0 to |plan|
        invariant |cards| == |plan| && |ledger| == |before.ledger| + count
        invariant ExpiredUpTo(before, View(), asOf, day, i)
      {
        var expired := ExpirePlanned(before, i, asOf, day, plan[i]);
        if expired { count := count + 1; }
      }
      AllExpired(before, View(), asOf, day);
    }
  }

  /** The first `i` cards have been expired, the others are as they were when they were read. */
  ghost predicate ExpiredUpTo(before: Books, now: Books, asOf: Time, day: int, i: nat) {
    && i <= |before.cards| == |now.cards| && Sound(now) && now == ExpireAll(before, asOf, day, i)
    && (forall c :: i <= c < |now.cards| ==> SameCard(before, now, c, day))
    && (forall c :: 0 <= c < i && Expirable(now, c, asOf) ==> UsedKey(before.ledger, Daily(c, day)))
  }

  lemma NothingExpiredYet(before: Books, asOf: Time, day: int)
    requires Sound(before)
    ensures ExpiredUpTo(before, before, asOf, day, 0)
  {
  }

  lemma AllExpired(before: Books, now: Books, asOf: Time, day: int)
    requires ExpiredUpTo(before, now, asOf, day, |now.cards|)
    ensures Sound(now) && |now.cards| == |before.cards| && now == ExpireAll(before, asOf, day, |before.cards|)
    ensures forall c :: 0 <= c < |now.cards| && Expirable(now, c, asOf) ==> UsedKey(before.ledger, Daily(c, day))
  {
  }

  lemma ExpireNext(before: Books, now: Books, asOf: Time, day: int, i: nat)
    requires ExpiredUpTo(before, now, asOf, day, i) && i < |now.cards|
    ensures PlanFor(now, i, asOf) == PlanFor(before, i, asOf)
    ensures PlanFor(now, i, asOf).None? ==> ExpireNow(now, i, asOf, day) == now
    ensures ExpiredUpTo(before, ExpireNow(now, i, asOf, day), asOf, day, i + 1)
  {
    assert SameCard(before, now, i, day);
    ExpiryIsSound(now, i, asOf, day);
    ExpiryForm(now, i, asOf, day);
    OthersUntouched(now, i, asOf, day);
    var after := ExpireNow(now, i, asOf, day);
    forall c | i < c < |now.cards| ensures SameCard(before, after, c, day) { assert SameCard(before, now, c, day); }
  }

  /** The first `n` cards, expired in turn. */
  function ExpireAll(b: Books, asOf: Time, day: int, n: nat): (after: Books)
    requires n <= |b.cards|
    ensures |after.cards| == |b.cards|
  {
    if n == 0 then b else ExpireNow(ExpireAll(b, asOf, day, n - 1), n - 1, asOf, day)
  }

  /** Expiring one card changes nothing about the others. */
  lemma OthersUntouched(b: Books, card: nat, asOf: Time, day: int)
    requires card < |b.cards|
    ensures var after := ExpireNow(b, card, asOf, day);
            forall c :: 0 <= c < |b.cards| && c != card ==>
              && Balance(after.ledger, c) == Balance(b.ledger, c) && after.cards[c] == b.cards[c]
              && UsedKey(after.ledger, Daily(c, day)) == UsedKey(b.ledger, Daily(c, day))
  {
    var after := ExpireNow(b, card, asOf, day);
    if after != b {
      var e := Entry(card, Expiry, -Balance(b.ledger, card), None, Daily(card, day));
      forall c | 0 <= c < |b.cards| && c != card
        ensures Balance(after.ledger, c) == Balance(b.ledger, c)
        ensures UsedKey(after.ledger, Daily(c, day)) == UsedKey(b.ledger, Daily(c, day))
      {
        SumsAfter(b.ledger, e, c, 0);
        if k :| 0 <= k < |b.ledger| && b.ledger[k].key == Daily(c, day) { assert after.ledger[k] == b.ledger[k]; }
      }
    }
  }
}
