/**
 Loyalty points: one append-only ledger that earning, redeeming, adjusting, refunding and expiring
 all write to, each by one conditional insert under a unique key.
 */
module Points {
  import opened Common
  import opened Text

  /** Milliseconds in a day: an expiry row's key carries the date of its run. */
  const DAY := 86_400_000

  datatype Account = Account(customer: Id, program: Id)

  datatype Kind = Earn | Redeem | Adjustment | Reversal | Expiry

  /** A caller's key, a refund's prefix with the row it reverses, or the expiry worker's daily key. */
  datatype Key = Request(n: Id) | RefundOf(prefix: Id, row: nat) | Daily(account: Account, day: int)

  /** What an adjustment records beside its points: branch, business date and reason. */
  datatype Terms = Terms(branch: Id, date: Id, reason: string)

  /** One row of loyalty_ledger, identified by its place; `order` is the source document. */
  datatype Entry = Entry(account: Account, kind: Kind, points: int, order: Id, expires: Option<Time>,
                         source: Option<nat>,
                         terms: Option<Terms>, key: Key)

  /** `negative` holds the programs whose balances may be adjusted below zero. */
  datatype Book = Book(negative: set<Id>, ledger: seq<Entry>)

  // --- Sums -------------------------------------------------------------------------------------

  function Balance(ledger: seq<Entry>, a: Account): int {
    if ledger == [] then 0
    else
      Balance(ledger[..|ledger| - 1], a)
      + if ledger[|ledger| - 1].account == a then ledger[|ledger| - 1].points else 0
  }

  /** Points taken back for the earning at row `r`. */
  function ReversedOf(ledger: seq<Entry>, r: nat): int {
    if ledger == [] then 0
    else
      var e := ledger[|ledger| - 1];
      ReversedOf(ledger[..|ledger| - 1], r) - if e.kind == Reversal && e.source == Some(r) then e.points else 0
  }

  function Expired(ledger: seq<Entry>, a: Account): int {
    if ledger == [] then 0
    else
      var e := ledger[|ledger| - 1];
      Expired(ledger[..|ledger| - 1], a) - if e.account == a && e.kind == Expiry then e.points else 0
  }

  /** The row credits the account with points whose expiry has passed at `asOf`. */
  predicate IsDue(e: Entry, a: Account, asOf: Time) {
    e.account == a && e.points > 0 && e.expires.Some? && e.expires.value <= asOf
  }

  function Due(ledger: seq<Entry>, a: Account, asOf: Time): int {
    if ledger == [] then 0
    else
      Due(ledger[..|ledger| - 1], a, asOf)
      + if IsDue(ledger[|ledger| - 1], a, asOf) then ledger[|ledger| - 1].points else 0
  }

  lemma SumsAfter(l: seq<Entry>, e: Entry, a: Account, r: nat, asOf: Time)
    ensures Balance(l + [e], a) == Balance(l, a) + if e.account == a then e.points else 0
    ensures ReversedOf(l + [e], r)
            == ReversedOf(l, r) - if e.kind == Reversal && e.source == Some(r) then e.points else 0
    ensures Expired(l + [e], a) == Expired(l, a) - if e.account == a && e.kind == Expiry then e.points else 0
    ensures Due(l + [e], a, asOf) == Due(l, a, asOf) + if IsDue(e, a, asOf) then e.points else 0
  {
    assert (l + [e])[..|l|] == l;
  }

  predicate Used(ledger: seq<Entry>, key: Key) {
    exists i :: 0 <= i < |ledger| && ledger[i].key == key
  }

  // --- The atomic steps -------------------------------------------------------------------------

  datatype Step =
    | EarnPoints(account: Account, points: int, order: Id, expires: Option<Time>, key: Key)
    | RedeemPoints(account: Account, points: int, order: Id, key: Key)
    | AdjustPoints(account: Account, points: int, terms: Terms, key: Key)
    | ReverseEarn(row: nat, prefix: Id, numerator: int, denominator: int)
    | ExpireAccount(account: Account, asOf: Time, seen: seq<Entry>)

  /** Rows are only ever added, so what a run of expirePoints read earlier is a prefix of the ledger. */
  predicate Enabled(b: Book, s: Step) {
    match s
    case EarnPoints(_, points, _, _, key) => points > 0 && key.Request?
    case RedeemPoints(_, points, _, key) => points > 0 && key.Request?
    case AdjustPoints(_, points, _, key) => points != 0 && key.Request?
    case ReverseEarn(row, _, n, d) => row < |b.ledger| && b.ledger[row].kind == Earn && 0 < n <= d
    case ExpireAccount(_, _, seen) => seen <= b.ledger
  }

  /** floor(points * numerator / denominator). */
  function Share(points: int, numerator: int, denominator: int): int
    requires denominator > 0
  {
    points * numerator / denominator
  }

  /** What an expiry run takes from an account: what is due and not yet expired, up to the balance. */
  function ToExpire(ledger: seq<Entry>, a: Account, asOf: Time): int {
    Min(Due(ledger, a, asOf) - Expired(ledger, a), Balance(ledger, a))
  }

  /** What the expiry query returns for an account, if anything. */
  function PlanFor(ledger: seq<Entry>, a: Account, asOf: Time): Option<int> {
    if Due(ledger, a, asOf) > Expired(ledger, a) && Balance(ledger, a) > 0 then Some(ToExpire(ledger, a, asOf))
    else None
  }

  /** The trigger on the ledger aborts a row that takes more than the balance, unless the programme
      allows negative balances. */
  predicate Overdraws(b: Book, a: Account, points: int) {
    points > 0 && a.program !in b.negative && Balance(b.ledger, a) < points
  }

  /** The trigger on the ledger aborts a reversal that the balance does not cover, unless the
      programme allows negative balances. It fires before the key is looked at. */
  predicate Refused(b: Book, row: nat, numerator: int, denominator: int)
    requires row < |b.ledger| && denominator > 0
  {
    var earn := b.ledger[row];
    var share := Share(earn.points, numerator, denominator);
    Overdraws(b, earn.account, share)
  }

  /** The row a step tries to insert, unless its guard or the trigger stops it. */
  function Proposed(b: Book, s: Step): Option<Entry>
    requires Enabled(b, s)
  {
    match s
    case EarnPoints(a, points, order, expires, key) => Some(Entry(a, Earn, points, order, expires, None, None, key))
    case RedeemPoints(a, points, order, key) =>
      if Balance(b.ledger, a) - points >= 0 then Some(Entry(a, Redeem, -points, order, None, None, None, key)) else None
    case AdjustPoints(a, points, terms, key) =>
      if a.program in b.negative || Balance(b.ledger, a) + points >= 0
      then Some(Entry(a, Adjustment, points, 0, None, None, Some(terms), key)) else None
    case ReverseEarn(row, prefix, n, d) =>
      var earn := b.ledger[row];
      var share := Share(earn.points, n, d);
      if share == 0 || Refused(b, row, n, d) then None
      else Some(Entry(earn.account, Reversal, -share, earn.order, None, Some(row), None, RefundOf(prefix, row)))
    case ExpireAccount(a, asOf, seen) =>
      var planned := PlanFor(seen, a, asOf);
      if planned.None? || Overdraws(b, a, planned.value) then None
      else Some(Entry(a, Expiry, -planned.value, 0, None, None, None, Daily(a, asOf / DAY)))
  }

  /** The conditional insert with ON CONFLICT DO NOTHING. */
  function Apply(b: Book, s: Step): Book
    requires Enabled(b, s)
  {
    match Proposed(b, s)
    case Some(e) => if Used(b.ledger, e.key) then b else b.(ledger := b.ledger + [e])
    case None => b
  }

  // --- Invariants -------------------------------------------------------------------------------

  predicate EntryOk(ledger: seq<Entry>, i: nat)
    requires i < |ledger|
  {
    var e := ledger[i];
    && (e.kind == Earn ==> e.points > 0)
    && (e.kind == Reversal
        ==> e.points < 0 && e.source.Some? && e.source.value < i && ledger[e.source.value].kind == Earn
                               && e.key.RefundOf? && e.key.row == e.source.value
                               && e.account == ledger[e.source.value].account)
    && (e.kind != Reversal ==> !e.key.RefundOf?)
  }

  ghost predicate Sound(b: Book) {
    && (forall i :: 0 <= i < |b.ledger| ==> EntryOk(b.ledger, i))
    && (forall i, j :: 0 <= i < j < |b.ledger| ==> b.ledger[i].key != b.ledger[j].key)
    && (forall a: Account :: a.program !in b.negative ==> Balance(b.ledger, a) >= 0)
  }

  lemma ProposedIsOk(b: Book, s: Step)
    requires Sound(b) && Enabled(b, s) && Proposed(b, s).Some?
    ensures EntryOk(b.ledger + [Proposed(b, s).value], |b.ledger|)
  {
    if s.ReverseEarn? {
      assert EntryOk(b.ledger, s.row);
      ShareIsBounded(b.ledger[s.row].points, s.numerator, s.denominator);
    }
  }

  lemma ShareIsBounded(points: int, n: int, d: int)
    requires points >= 0 && 0 < n <= d
    ensures 0 <= Share(points, n, d) && points * n - d < d * Share(points, n, d) <= points * n <= d * points
  {
    assert points * n >= 0 && points * n <= points * d;
  }

  lemma StepKeepsSound(b: Book, s: Step)
    requires Sound(b) && Enabled(b, s)
    ensures Sound(Apply(b, s))
  {
    if Apply(b, s) != b {
      var e := Proposed(b, s).value;
      ProposedIsOk(b, s);
      forall i | 0 <= i < |b.ledger| ensures EntryOk(b.ledger + [e], i) { assert EntryOk(b.ledger, i); }
      forall a: Account | a.program !in b.negative ensures Balance(b.ledger + [e], a) >= 0 {
        SumsAfter(b.ledger, e, a, 0, 0);
      }
    }
  }

  // --- Runs -------------------------------------------------------------------------------------

  ghost predicate IsRun(states: seq<Book>, steps: seq<Step>) {
    && |states| == |steps| + 1 && states[0].ledger == []
    && forall i {:trigger steps[i]} :: 0 <= i < |steps| ==>
         Enabled(states[i], steps[i]) && states[i + 1] == Apply(states[i], steps[i])
  }

  lemma {:induction false} RunKeeps(states: seq<Book>, steps: seq<Step>, i: nat)
    requires IsRun(states, steps) && i <= |steps|
    ensures Sound(states[i]) && states[i].negative == states[0].negative
  {
    if i > 0 {
      RunKeeps(states, steps, i - 1);
      StepKeepsSound(states[i - 1], steps[i - 1]);
    }
  }

  /** Where negative balances are off, no balance is ever negative, in any interleaving; where they
      are on, only a reversal, an adjustment or an expiry planned on a larger balance takes one below
      zero. */
  lemma NeverOverdrawn(states: seq<Book>, steps: seq<Step>, i: nat, a: Account)
    requires IsRun(states, steps) && i <= |steps|
    ensures a.program !in states[0].negative ==> Balance(states[i].ledger, a) >= 0
    ensures i < |steps| && Balance(states[i + 1].ledger, a) < Min(0, Balance(states[i].ledger, a))
            ==> a.program in states[0].negative
                && (steps[i].ReverseEarn? || steps[i].AdjustPoints?
                    || (steps[i].ExpireAccount? && Balance(states[i].ledger, a) < Balance(steps[i].seen, a)))
  {
    RunKeeps(states, steps, i);
    if i < |steps| {
      RunKeeps(states, steps, i + 1);
      if states[i + 1] != states[i] { SumsAfter(states[i].ledger, Proposed(states[i], steps[i]).value, a, 0, 0); }
    }
  }

  /** An expiry takes only what the account has, unless the programme allows negative balances and the
      balance shrank between the read and the insert. */
  lemma ExpiryNeverOverdraws(b: Book, a: Account, asOf: Time, seen: seq<Entry>)
    requires seen <= b.ledger && (a.program !in b.negative || Balance(seen, a) <= Balance(b.ledger, a))
    ensures var after := Apply(b, ExpireAccount(a, asOf, seen));
            after != b ==> 0 <= Balance(after.ledger, a) < Balance(b.ledger, a)
                           && Expired(after.ledger, a) - Expired(b.ledger, a)
                                == Balance(b.ledger, a) - Balance(after.ledger, a)
  {
    var s := ExpireAccount(a, asOf, seen);
    if Apply(b, s) != b { SumsAfter(b.ledger, Proposed(b, s).value, a, 0, asOf); }
  }

  lemma {:induction false} DueGrows(ledger: seq<Entry>, a: Account, early: Time, late: Time)
    requires early <= late
    ensures Due(ledger, a, early) <= Due(ledger, a, late)
  {
    if ledger != [] { DueGrows(ledger[..|ledger| - 1], a, early, late); }
  }

  /** Other rows of the ledger neither expire points nor make fewer points due. */
  lemma {:induction false} SinceRead(seen: seq<Entry>, ledger: seq<Entry>, a: Account, asOf: Time)
    requires seen <= ledger
    requires forall j :: |seen| <= j < |ledger| && ledger[j].account == a ==> ledger[j].kind != Expiry
    ensures Expired(ledger, a) == Expired(seen, a) && Due(seen, a, asOf) <= Due(ledger, a, asOf)
  {
    if |ledger| > |seen| { SinceRead(seen, ledger[..|ledger| - 1], a, asOf); }
    else { assert ledger == seen; }
  }

  /** Expiries of one account that overlap, one inserting between another's read and insert, are of
      the same day. */
  ghost predicate OverlapsWithinDays(states: seq<Book>, steps: seq<Step>, n: nat)
    requires n <= |steps| <= |states|
  {
    forall k {:trigger steps[k]} :: 0 <= k < n && steps[k].ExpireAccount? ==>
      BetweenIsOfDay(steps[k].seen, states[k].ledger, steps[k].account, steps[k].asOf / DAY)
  }

  predicate BetweenIsOfDay(seen: seq<Entry>, ledger: seq<Entry>, a: Account, day: int) {
    forall j :: |seen| <= j < |ledger| && ledger[j].account == a && ledger[j].kind == Expiry ==>
      ledger[j].key == Daily(a, day)
  }

  /** The points expired never exceed the points whose expiry had passed at the latest run so far, as
      long as runs that overlap are of the same day. */
  lemma {:induction false} ExpiredWasDue(states: seq<Book>, steps: seq<Step>, i: nat, a: Account, latest: Time)
    requires IsRun(states, steps) && i <= |steps| && OverlapsWithinDays(states, steps, i)
    requires forall k {:trigger steps[k]} :: 0 <= k < i && steps[k].ExpireAccount? ==> steps[k].asOf <= latest
    ensures 0 <= Expired(states[i].ledger, a) <= Due(states[i].ledger, a, latest)
  {
    if i == 0 {
    } else {
      ExpiredWasDue(states, steps, i - 1, a, latest);
      var b, s := states[i - 1], steps[i - 1];
      if Apply(b, s) != b {
        SumsAfter(b.ledger, Proposed(b, s).value, a, 0, latest);
        if s.ExpireAccount? && s.account == a {
          SinceRead(s.seen, b.ledger, a, s.asOf);
          DueGrows(b.ledger, a, s.asOf, latest);
        }
      }
    }
  }

  const HOLDER := Account(0, 0)
  const DUE := Entry(HOLDER, Earn, 10, 0, Some(0), None, None, Request(1))
  const KEPT := Entry(HOLDER, Earn, 10, 0, None, None, None, Request(2))
  const FIRST_DAY := Entry(HOLDER, Expiry, -10, 0, None, None, None, Daily(HOLDER, 0))
  const SECOND_DAY := Entry(HOLDER, Expiry, -10, 0, None, None, None, Daily(HOLDER, 1))

  lemma SumsOfTwo(asOf: Time)
    requires asOf >= 0
    ensures PlanFor([DUE, KEPT], HOLDER, asOf) == Some(10)
    ensures Balance([DUE, KEPT], HOLDER) == 20 && Balance([DUE, KEPT, FIRST_DAY], HOLDER) == 10
    ensures Due([DUE, KEPT, FIRST_DAY, SECOND_DAY], HOLDER, asOf) == 10
    ensures Expired([DUE, KEPT, FIRST_DAY, SECOND_DAY], HOLDER) == 20
  {
    SumsAfter([], DUE, HOLDER, 0, asOf);
    SumsAfter([DUE], KEPT, HOLDER, 0, asOf);
    SumsAfter([DUE, KEPT], FIRST_DAY, HOLDER, 0, asOf);
    SumsAfter([DUE, KEPT, FIRST_DAY], SECOND_DAY, HOLDER, 0, asOf);
    assert [DUE] + [KEPT] == [DUE, KEPT] && [DUE, KEPT] + [FIRST_DAY] == [DUE, KEPT, FIRST_DAY];
    assert [DUE, KEPT, FIRST_DAY] + [SECOND_DAY] == [DUE, KEPT, FIRST_DAY, SECOND_DAY];
  }

  lemma BothInsert()
    ensures Apply(Book({}, [DUE, KEPT]), ExpireAccount(HOLDER, 0, [DUE, KEPT])) == Book({}, [DUE, KEPT, FIRST_DAY])
    ensures Apply(Book({}, [DUE, KEPT, FIRST_DAY]), ExpireAccount(HOLDER, DAY, [DUE, KEPT]))
            == Book({}, [DUE, KEPT, FIRST_DAY, SECOND_DAY])
  {
    SumsOfTwo(0);
    SumsOfTwo(DAY);
    assert Proposed(Book({}, [DUE, KEPT]), ExpireAccount(HOLDER, 0, [DUE, KEPT])) == Some(FIRST_DAY);
    assert Proposed(Book({}, [DUE, KEPT, FIRST_DAY]), ExpireAccount(HOLDER, DAY, [DUE, KEPT])) == Some(SECOND_DAY);
  }

  lemma BothEarn()
    ensures Apply(Book({}, []), EarnPoints(HOLDER, 10, 0, Some(0), Request(1))) == Book({}, [DUE])
    ensures Apply(Book({}, [DUE]), EarnPoints(HOLDER, 10, 0, None, Request(2))) == Book({}, [DUE, KEPT])
  {
  }

  /** Runs of two days that overlap expire the same points twice: ten points are due, ten are not, and
      both runs read before either inserts. */
  lemma OverlappingDaysExpireTwice()
    ensures exists states: seq<Book>, steps: seq<Step> ::
              && IsRun(states, steps) && |steps| == 4 && !OverlapsWithinDays(states, steps, 4)
              && Expired(states[4].ledger, HOLDER) == 20 && Due(states[4].ledger, HOLDER, DAY) == 10
  {
    var steps := [EarnPoints(HOLDER, 10, 0, Some(0), Request(1)), EarnPoints(HOLDER, 10, 0, None, Request(2)),
                  ExpireAccount(HOLDER, 0, [DUE, KEPT]), ExpireAccount(HOLDER, DAY, [DUE, KEPT])];
    var states := [Book({}, []), Book({}, [DUE]), Book({}, [DUE, KEPT]), Book({}, [DUE, KEPT, FIRST_DAY]),
                   Book({}, [DUE, KEPT, FIRST_DAY, SECOND_DAY])];
    BothEarn();
    BothInsert();
    SumsOfTwo(DAY);
    assert IsRun(states, steps);
    assert states[3].ledger[2] == FIRST_DAY;
    assert !BetweenIsOfDay(steps[3].seen, states[3].ledger, HOLDER, 1);
  }

  /** An expiry whose read and insert come right after one another. */
  function ExpireNow(b: Book, a: Account, asOf: Time): Book {
    Apply(b, ExpireAccount(a, asOf, b.ledger))
  }

  /** Right after a run at `asOf`, a run at the same time has nothing to insert, key or no key,
      unless the day's key was taken before the first one. */
  lemma SecondExpiryAddsNothing(b: Book, a: Account, asOf: Time)
    ensures var after := ExpireNow(b, a, asOf);
            && ExpireNow(after, a, asOf) == after
            && (Used(b.ledger, Daily(a, asOf / DAY)) || PlanFor(after.ledger, a, asOf).None?)
  {
    var s := ExpireAccount(a, asOf, b.ledger);
    if Apply(b, s) != b { SumsAfter(b.ledger, Proposed(b, s).value, a, 0, asOf); }
  }

  // --- What the steps come to -----------------------------------------------------------------------

  /** One account's balance moved by `move`, no other's. */
  ghost predicate BalanceMoved(before: seq<Entry>, after: seq<Entry>, a: Account, move: int) {
    forall x: Account :: Balance(after, x) == Balance(before, x) + if x == a then move else 0
  }

  lemma InsertMoves(b: Book, s: Step)
    requires Enabled(b, s) && Apply(b, s) != b
    ensures var e := Proposed(b, s).value;
            BalanceMoved(b.ledger, Apply(b, s).ledger, e.account, e.points) && Used(Apply(b, s).ledger, e.key)
  {
    var e := Proposed(b, s).value;
    forall x: Account
      ensures Balance(b.ledger + [e], x) == Balance(b.ledger, x) + if x == e.account then e.points else 0
    {
      SumsAfter(b.ledger, e, x, 0, 0);
    }
    UsedAfter(b.ledger, e, e.key);
  }

  /** The row that a step writes. */
  lemma RowIs(b: Book, s: Step)
    requires Enabled(b, s) && Apply(b, s) != b
    ensures Apply(b, s).negative == b.negative && |Apply(b, s).ledger| == |b.ledger| + 1
    ensures b.ledger <= Apply(b, s).ledger
    ensures var e := Apply(b, s).ledger[|b.ledger|];
            match s
            case EarnPoints(a, points, order, expires, key) =>
              e.kind == Earn && e.account == a && e.order == order && e.expires == expires && e.key == key
            case RedeemPoints(a, points, order, key) =>
              e.kind == Redeem && e.account == a && e.order == order && e.expires == None && e.key == key
            case AdjustPoints(a, points, terms, key) =>
              e.kind == Adjustment && e.account == a && e.terms == Some(terms) && e.expires == None && e.key == key
            case ReverseEarn(row, prefix, n, d) =>
              e.kind == Reversal && e.account == b.ledger[row].account && e.source == Some(row) && e.expires == None
            case ExpireAccount(a, asOf, seen) => e.kind == Expiry && e.account == a && e.expires == None
  {
  }

  /** Earning adds its points once per key. */
  lemma EarningMoves(b: Book, a: Account, points: int, order: Id, expires: Option<Time>, key: Key)
    requires Enabled(b, EarnPoints(a, points, order, expires, key))
    ensures var after := Apply(b, EarnPoints(a, points, order, expires, key));
            if Used(b.ledger, key) then after == b
            else BalanceMoved(b.ledger, after.ledger, a, points) && Used(after.ledger, key)
                 && (forall t: Time :: Due(after.ledger, a, t) == Due(b.ledger, a, t)
                                       + if expires.Some? && expires.value <= t then points else 0)
  {
    var s := EarnPoints(a, points, order, expires, key);
    if !Used(b.ledger, key) {
      InsertMoves(b, s);
      forall t: Time
        ensures Due(Apply(b, s).ledger, a, t)
                == Due(b.ledger, a, t) + if expires.Some? && expires.value <= t then points else 0
      {
        SumsAfter(b.ledger, Proposed(b, s).value, a, 0, t);
      }
    }
  }

  /** A redemption takes its points once per key, if the balance covers them, whatever the programme allows. */
  lemma RedemptionMoves(b: Book, a: Account, points: int, order: Id, key: Key)
    requires Enabled(b, RedeemPoints(a, points, order, key))
    ensures var after := Apply(b, RedeemPoints(a, points, order, key));
            if points <= Balance(b.ledger, a) && !Used(b.ledger, key)
            then BalanceMoved(b.ledger, after.ledger, a, -points) && Used(after.ledger, key) else after == b
  {
    if Apply(b, RedeemPoints(a, points, order, key)) != b { InsertMoves(b, RedeemPoints(a, points, order, key)); }
  }

  /** An adjustment adds its points, positive or negative, once per key, and takes the balance below zero
      only where the programme allows it. */
  lemma AdjustmentMoves(b: Book, a: Account, points: int, terms: Terms, key: Key)
    requires Enabled(b, AdjustPoints(a, points, terms, key))
    ensures var after := Apply(b, AdjustPoints(a, points, terms, key));
            if (a.program in b.negative || Balance(b.ledger, a) + points >= 0) && !Used(b.ledger, key)
            then BalanceMoved(b.ledger, after.ledger, a, points) && Used(after.ledger, key) else after == b
  {
    if Apply(b, AdjustPoints(a, points, terms, key)) != b { InsertMoves(b, AdjustPoints(a, points, terms, key)); }
  }

  /** A refund takes `share` points, the whole points of its part of the earning, from the earning's
      account, once per prefix and row, if the programme allows negative balances or the balance covers
      them. */
  lemma RefundMoves(b: Book, row: nat, prefix: Id, n: int, d: int, share: int)
    requires Enabled(b, ReverseEarn(row, prefix, n, d))
    requires share * d <= b.ledger[row].points * n < (share + 1) * d
    ensures var after := Apply(b, ReverseEarn(row, prefix, n, d)); var a := b.ledger[row].account;
            if share != 0 && (share < 0 || a.program in b.negative || share <= Balance(b.ledger, a))
               && !Used(b.ledger, RefundOf(prefix, row))
            then && BalanceMoved(b.ledger, after.ledger, a, -share)
                 && ReversedOf(after.ledger, row) == ReversedOf(b.ledger, row) + share
                 && Used(after.ledger, RefundOf(prefix, row))
            else after == b
  {
    var s := ReverseEarn(row, prefix, n, d);
    ShareIs(b.ledger[row].points, n, d, share);
    if Apply(b, s) != b {
      InsertMoves(b, s);
      SumsAfter(b.ledger, Proposed(b, s).value, b.ledger[row].account, row, 0);
    }
  }

  lemma ShareIs(points: int, n: int, d: int, share: int)
    requires d > 0 && share * d <= points * n < (share + 1) * d
    ensures Share(points, n, d) == share
  {
    var q := points * n / d;
    assert q * d <= points * n < (q + 1) * d;
    if q < share { NoSmaller(q, share, d); }
    if share < q { NoSmaller(share, q, d); }
  }

  lemma NoSmaller(a: int, b: int, d: int)
    requires a < b && d > 0
    ensures (a + 1) * d <= b * d
  {
  }

  /** An expiry takes from the account what was due and not yet expired when it read, up to the balance it
      read, once a day, unless the trigger finds the balance smaller by now. */
  lemma ExpiryMoves(b: Book, a: Account, asOf: Time, seen: seq<Entry>)
    requires seen <= b.ledger
    ensures var after := Apply(b, ExpireAccount(a, asOf, seen));
            var due, balance := Due(seen, a, asOf) - Expired(seen, a), Balance(seen, a);
            var planned := if due < balance then due else balance;
            if due > 0 && balance > 0 && (a.program in b.negative || planned <= Balance(b.ledger, a))
               && !Used(b.ledger, Daily(a, asOf / (24 * 60 * 60 * 1000)))
            then && BalanceMoved(b.ledger, after.ledger, a, -planned)
                 && Expired(after.ledger, a) == Expired(b.ledger, a) + planned
                 && Used(after.ledger, Daily(a, asOf / (24 * 60 * 60 * 1000)))
            else after == b
  {
    var s := ExpireAccount(a, asOf, seen);
    if Apply(b, s) != b {
      InsertMoves(b, s);
      SumsAfter(b.ledger, Proposed(b, s).value, a, 0, 0);
    }
  }

  // --- Partial refunds ----------------------------------------------------------------------------

  /** Refund `prefix` was already asked for on row `r` among the first `n` steps. */
  predicate Asked(steps: seq<Step>, n: nat, r: nat, prefix: Id)
    requires n <= |steps|
  {
    exists k :: 0 <= k < n && steps[k].ReverseEarn? && steps[k].row == r && steps[k].prefix == prefix
  }

  /** The numerators of the different refunds asked for on row `r` in the first `n` steps. */
  function Numerators(steps: seq<Step>, n: nat, r: nat): int
    requires n <= |steps|
  {
    if n == 0 then 0
    else
      var s := steps[n - 1];
      Numerators(steps, n - 1, r) + if s.ReverseEarn? && s.row == r && !Asked(steps, n - 1, r, s.prefix)
                                    then s.numerator else 0
  }

  function Refunds(steps: seq<Step>, n: nat, r: nat): nat
    requires n <= |steps|
  {
    if n == 0 then 0
    else
      var s := steps[n - 1];
      Refunds(steps, n - 1, r) + if s.ReverseEarn? && s.row == r && !Asked(steps, n - 1, r, s.prefix) then 1 else 0
  }

  /** Two refunds of row `r` under one prefix. */
  predicate Alike(a: Step, b: Step, r: nat) {
    a.ReverseEarn? && b.ReverseEarn? && a.row == r && b.row == r && a.prefix == b.prefix
  }

  /** Refunds of row `r` share one denominator, and a repeated prefix repeats its ratio. */
  predicate OneRatioPerPrefix(steps: seq<Step>, r: nat, d: int) {
    && (forall k {:trigger steps[k]} :: 0 <= k < |steps| && steps[k].ReverseEarn? && steps[k].row == r ==>
          steps[k].denominator == d)
    && (forall j, k {:trigger steps[j], steps[k]} :: 0 <= j < k < |steps| && Alike(steps[j], steps[k], r) ==>
          steps[j].numerator == steps[k].numerator)
  }

  /** Rows are never changed or removed. */
  lemma {:induction false} LedgerGrows(states: seq<Book>, steps: seq<Step>, i: nat, j: nat)
    requires IsRun(states, steps) && i <= j <= |steps|
    ensures states[i].ledger <= states[j].ledger
  {
    if i < j {
      LedgerGrows(states, steps, i, j - 1);
      assert states[j - 1].ledger <= Apply(states[j - 1], steps[j - 1]).ledger;
    }
  }

  /** A refund's key is left only by a refund that was asked for. */
  lemma {:induction false} KeyWasAsked(states: seq<Book>, steps: seq<Step>, i: nat, r: nat, prefix: Id)
    requires IsRun(states, steps) && i <= |steps| && Used(states[i].ledger, RefundOf(prefix, r))
    ensures Asked(steps, i, r, prefix)
  {
    if i > 0 {
      if Used(states[i - 1].ledger, RefundOf(prefix, r)) {
        KeyWasAsked(states, steps, i - 1, r, prefix);
      } else {
        KeyOfReversal(states[i - 1], steps[i - 1], r, prefix);
      }
    }
  }

  lemma KeyOfReversal(b: Book, s: Step, r: nat, prefix: Id)
    requires Enabled(b, s) && !Used(b.ledger, RefundOf(prefix, r)) && Used(Apply(b, s).ledger, RefundOf(prefix, r))
    ensures s.ReverseEarn? && s.row == r && s.prefix == prefix
  {
    UsedAfter(b.ledger, Proposed(b, s).value, RefundOf(prefix, r));
  }

  lemma UsedAfter(ledger: seq<Entry>, e: Entry, key: Key)
    ensures Used(ledger + [e], key) <==> Used(ledger, key) || e.key == key
  {
    if Used(ledger, key) {
      var k :| 0 <= k < |ledger| && ledger[k].key == key;
      assert (ledger + [e])[k].key == key;
    }
    assert (ledger + [e])[|ledger|] == e;
  }

  /** The shares of the different refunds asked for on row `r`, earning `points`: all of them, or
      only those whose reversal is in the ledger. */
  function Shares(steps: seq<Step>, n: nat, r: nat, points: int, d: int): int
    requires n <= |steps| && d > 0
  {
    if n == 0 then 0
    else
      var s := steps[n - 1];
      Shares(steps, n - 1, r, points, d)
      + if s.ReverseEarn? && s.row == r && !Asked(steps, n - 1, r, s.prefix) then Share(points, s.numerator, d) else 0
  }

  function Granted(steps: seq<Step>, n: nat, r: nat, points: int, d: int, ledger: seq<Entry>): int
    requires n <= |steps| && d > 0
  {
    if n == 0 then 0
    else
      var s := steps[n - 1];
      Granted(steps, n - 1, r, points, d, ledger)
      + if s.ReverseEarn? && s.row == r && !Asked(steps, n - 1, r, s.prefix) && Used(ledger, RefundOf(s.prefix, r))
        then Share(points, s.numerator, d) else 0
  }

  predicate Refunding(s: Step, r: nat, prefix: Id) {
    s.ReverseEarn? && s.row == r && s.prefix == prefix
  }

  /** One more reversal grants its prefix, if it was asked for before; other rows grant nothing. */
  lemma {:induction false} GrantedAfter(steps: seq<Step>, n: nat, r: nat, points: int, d: int, ledger: seq<Entry>,
                                        e: Entry, num: int)
    requires n <= |steps| && d > 0 && !Used(ledger, e.key)
    requires e.key.RefundOf? && e.key.row == r ==>
               forall k :: 0 <= k < n && Refunding(steps[k], r, e.key.prefix) ==> steps[k].numerator == num
    ensures Granted(steps, n, r, points, d, ledger + [e]) == Granted(steps, n, r, points, d, ledger)
              + if e.key.RefundOf? && e.key.row == r && Asked(steps, n, r, e.key.prefix) then Share(points, num, d)
                else 0
  {
    if n > 0 {
      GrantedAfter(steps, n - 1, r, points, d, ledger, e, num);
      var s := steps[n - 1];
      if s.ReverseEarn? && s.row == r { UsedAfter(ledger, e, RefundOf(s.prefix, r)); }
    }
  }

  lemma {:induction false} NothingReversedYet(ledger: seq<Entry>, r: nat)
    requires |ledger| <= r + 1 && forall k :: 0 <= k < |ledger| ==> EntryOk(ledger, k)
    ensures ReversedOf(ledger, r) == 0
  {
    if ledger != [] {
      var l := ledger[..|ledger| - 1];
      forall k | 0 <= k < |l| ensures EntryOk(l, k) { assert EntryOk(ledger, k); }
      NothingReversedYet(l, r);
      assert EntryOk(ledger, |ledger| - 1);
    }
  }

  lemma {:induction false} NothingAskedYet(states: seq<Book>, steps: seq<Step>, i: nat, r: nat, d: int)
    requires IsRun(states, steps) && i <= |steps| && (i == 0 || |states[i - 1].ledger| <= r) && d > 0
    ensures forall points, l :: Granted(steps, i, r, points, d, l) == 0
  {
    if i > 0 {
      LedgerGrows(states, steps, i - 1, i);
      if i > 1 { LedgerGrows(states, steps, i - 2, i - 1); }
      NothingAskedYet(states, steps, i - 1, r, d);
    }
  }

  /** What a step adds to the points taken back for a row is what it grants. */
  lemma StepGrants(states: seq<Book>, steps: seq<Step>, i: nat, r: nat, d: int)
    requires IsRun(states, steps) && i < |steps| && d > 0 && OneRatioPerPrefix(steps, r, d) && r < |states[i].ledger|
    ensures var points := states[i].ledger[r].points; var l, l' := states[i].ledger, states[i + 1].ledger;
            Granted(steps, i + 1, r, points, d, l') - Granted(steps, i, r, points, d, l)
              == ReversedOf(l', r) - ReversedOf(l, r)
  {
    var b, s := states[i], steps[i];
    var points := b.ledger[r].points;
    RunKeeps(states, steps, i);
    if Apply(b, s) != b {
      var e := Proposed(b, s).value;
      SumsAfter(b.ledger, e, e.account, r, 0);
      GrantedAfter(steps, i, r, points, d, b.ledger, e, if s.ReverseEarn? then s.numerator else 0);
      UsedAfter(b.ledger, e, e.key);
    } else if s.ReverseEarn? && s.row == r && Used(b.ledger, RefundOf(s.prefix, r)) {
      KeyWasAsked(states, steps, i, r, s.prefix);
    }
  }

  /** Nothing has been asked for or taken back for a row that was just written. */
  lemma FreshRowIsEven(states: seq<Book>, steps: seq<Step>, i: nat, r: nat, d: int)
    requires IsRun(states, steps) && 0 < i <= |steps| && d > 0
    requires |states[i - 1].ledger| <= r < |states[i].ledger|
    ensures ReversedOf(states[i].ledger, r) == 0
    ensures Granted(steps, i, r, states[i].ledger[r].points, d, states[i].ledger) == 0
  {
    RunKeeps(states, steps, i);
    assert states[i] == Apply(states[i - 1], steps[i - 1]);
    NothingReversedYet(states[i].ledger, r);
    NothingAskedYet(states, steps, i, r, d);
  }

  /** The points taken back for an earning are the shares of the refunds whose reversal was written. */
  lemma {:induction false} ReversedIsGranted(states: seq<Book>, steps: seq<Step>, i: nat, r: nat, d: int)
    requires IsRun(states, steps) && i <= |steps| && d > 0 && OneRatioPerPrefix(steps, r, d) && r < |states[i].ledger|
    ensures ReversedOf(states[i].ledger, r) == Granted(steps, i, r, states[i].ledger[r].points, d, states[i].ledger)
    decreases i, 1
  {
    if i == 0 {
    } else if r >= |states[i - 1].ledger| {
      FreshRowIsEven(states, steps, i, r, d);
    } else {
      OldRowStaysEven(states, steps, i - 1, r, d);
    }
  }

  lemma {:induction false} OldRowStaysEven(states: seq<Book>, steps: seq<Step>, i: nat, r: nat, d: int)
    requires IsRun(states, steps) && i < |steps| && d > 0 && OneRatioPerPrefix(steps, r, d) && r < |states[i].ledger|
    ensures r < |states[i + 1].ledger|
    ensures var l := states[i + 1].ledger; ReversedOf(l, r) == Granted(steps, i + 1, r, l[r].points, d, l)
    decreases i + 1, 0
  {
    LedgerGrows(states, steps, i, i + 1);
    ReversedIsGranted(states, steps, i, r, d);
    StepGrants(states, steps, i, r, d);
    assert states[i + 1].ledger[r] == states[i].ledger[r];
  }

  /** Some refund asked for on row `r` was worth a point and has no reversal in the ledger. */
  predicate Outstanding(steps: seq<Step>, n: nat, r: nat, points: int, d: int, ledger: seq<Entry>)
    requires n <= |steps| && d > 0
  {
    exists k :: 0 <= k < n && steps[k].ReverseEarn? && steps[k].row == r
                && Share(points, steps[k].numerator, d) > 0 && !Used(ledger, RefundOf(steps[k].prefix, r))
  }

  /** The balance covers nothing of the refund, or there is nothing to take back. */
  predicate ComesToNothing(b: Book, s: Step)
    requires Enabled(b, s) && s.ReverseEarn?
  {
    Share(b.ledger[s.row].points, s.numerator, s.denominator) == 0 || Refused(b, s.row, s.numerator, s.denominator)
  }

  /** Refund `prefix` of row `r` came to nothing each time it was asked for. */
  ghost predicate AlwaysRefused(states: seq<Book>, steps: seq<Step>, i: nat, r: nat, prefix: Id)
    requires IsRun(states, steps) && i <= |steps|
  {
    forall k {:trigger steps[k]} :: 0 <= k < i && Refunding(steps[k], r, prefix) ==> ComesToNothing(states[k], steps[k])
  }

  lemma RefundWrites(b: Book, s: Step, r: nat, prefix: Id)
    requires Sound(b) && Enabled(b, s)
    ensures Used(Apply(b, s).ledger, RefundOf(prefix, r))
            <==> Used(b.ledger, RefundOf(prefix, r)) || (Refunding(s, r, prefix) && !ComesToNothing(b, s))
  {
    if Proposed(b, s).Some? && !Used(b.ledger, Proposed(b, s).value.key) {
      UsedAfter(b.ledger, Proposed(b, s).value, RefundOf(prefix, r));
    }
  }

  /** A refund has no reversal in the ledger exactly if the trigger refused it, or it came to less than
      a point, every time it was asked for. */
  lemma {:induction false} UnwrittenMeansRefused(states: seq<Book>, steps: seq<Step>, i: nat, r: nat, prefix: Id)
    requires IsRun(states, steps) && i <= |steps|
    ensures !Used(states[i].ledger, RefundOf(prefix, r)) <==> AlwaysRefused(states, steps, i, r, prefix)
  {
    if i > 0 {
      UnwrittenMeansRefused(states, steps, i - 1, r, prefix);
      RunKeeps(states, steps, i - 1);
      RefundWrites(states[i - 1], steps[i - 1], r, prefix);
    }
  }

  /** Some refund asked for on row `r` was worth a point and met too small a balance each time. */
  ghost predicate Unpaid(states: seq<Book>, steps: seq<Step>, i: nat, r: nat, points: int, d: int)
    requires IsRun(states, steps) && i <= |steps| && d > 0
  {
    exists k :: 0 <= k < i && steps[k].ReverseEarn? && steps[k].row == r && Share(points, steps[k].numerator, d) > 0
                && AlwaysRefused(states, steps, i, r, steps[k].prefix)
  }

  lemma OutstandingMeansUnpaid(states: seq<Book>, steps: seq<Step>, i: nat, r: nat, points: int, d: int)
    requires IsRun(states, steps) && i <= |steps| && d > 0
    ensures Outstanding(steps, i, r, points, d, states[i].ledger) <==> Unpaid(states, steps, i, r, points, d)
  {
    forall k | 0 <= k < i && steps[k].ReverseEarn? && steps[k].row == r
      ensures !Used(states[i].ledger, RefundOf(steps[k].prefix, r))
              <==> AlwaysRefused(states, steps, i, r, steps[k].prefix)
    {
      UnwrittenMeansRefused(states, steps, i, r, steps[k].prefix);
    }
  }

  lemma KeyStays(before: seq<Entry>, after: seq<Entry>, key: Key)
    requires before <= after && Used(before, key)
    ensures Used(after, key)
  {
    var k :| 0 <= k < |before| && before[k].key == key;
    assert after[k].key == key;
  }

  /** All shares are granted exactly if none is outstanding. */
  lemma {:induction false} GrantedVersusShares(steps: seq<Step>, n: nat, r: nat, points: int, d: int,
                                               ledger: seq<Entry>)
    requires n <= |steps| && d > 0 && points >= 0 && OneRatioPerPrefix(steps, r, d)
    requires forall k :: 0 <= k < n && steps[k].ReverseEarn? && steps[k].row == r ==> 0 < steps[k].numerator <= d
    ensures 0 <= Granted(steps, n, r, points, d, ledger) <= Shares(steps, n, r, points, d)
    ensures Granted(steps, n, r, points, d, ledger) == Shares(steps, n, r, points, d)
            <==> !Outstanding(steps, n, r, points, d, ledger)
  {
    if n > 0 {
      GrantedVersusShares(steps, n - 1, r, points, d, ledger);
      var s := steps[n - 1];
      if s.ReverseEarn? && s.row == r {
        ShareIsBounded(points, s.numerator, d);
        if Asked(steps, n - 1, r, s.prefix) {
          var k :| 0 <= k < n - 1 && steps[k].ReverseEarn? && steps[k].row == r && steps[k].prefix == s.prefix;
          assert steps[k].numerator == s.numerator;
        }
      }
      OutstandingOneMore(steps, n - 1, r, points, d, ledger);
    }
  }

  lemma OutstandingOneMore(steps: seq<Step>, n: nat, r: nat, points: int, d: int, ledger: seq<Entry>)
    requires n < |steps| && d > 0
    ensures Outstanding(steps, n + 1, r, points, d, ledger)
            <==> Outstanding(steps, n, r, points, d, ledger)
                 || (steps[n].ReverseEarn? && steps[n].row == r && Share(points, steps[n].numerator, d) > 0
                     && !Used(ledger, RefundOf(steps[n].prefix, r)))
  {
  }

  lemma AddShare(points: int, n: int, d: int, before: int, asked: int, count: nat)
    requires points >= 0 && 0 < n <= d && d * before <= points * asked <= d * before + (d - 1) * count
    ensures d * (before + Share(points, n, d)) <= points * (asked + n) <= d * (before + Share(points, n, d))
            + (d - 1) * (count + 1)
  {
    ShareIsBounded(points, n, d);
  }

  /** The floors fall short of the exact share by less than a point each. */
  lemma {:induction false} SharesAddUp(steps: seq<Step>, n: nat, r: nat, points: int, d: int)
    requires n <= |steps| && d > 0 && points >= 0
    requires forall k :: 0 <= k < n && steps[k].ReverseEarn? && steps[k].row == r ==> 0 < steps[k].numerator <= d
    ensures var shares := Shares(steps, n, r, points, d);
            d * shares <= points * Numerators(steps, n, r) <= d * shares + (d - 1) * Refunds(steps, n, r)
  {
    if n > 0 {
      SharesAddUp(steps, n - 1, r, points, d);
      var s := steps[n - 1];
      if s.ReverseEarn? && s.row == r && !Asked(steps, n - 1, r, s.prefix) {
        AddShare(points, s.numerator, d, Shares(steps, n - 1, r, points, d), Numerators(steps, n - 1, r),
                 Refunds(steps, n - 1, r));
      }
    }
  }

  lemma RatiosAreOk(states: seq<Book>, steps: seq<Step>, r: nat, d: int)
    requires IsRun(states, steps) && OneRatioPerPrefix(steps, r, d)
    ensures forall k :: 0 <= k < |steps| && steps[k].ReverseEarn? && steps[k].row == r ==> 0 < steps[k].numerator <= d
  {
    forall k | 0 <= k < |steps| && steps[k].ReverseEarn? && steps[k].row == r ensures 0 < steps[k].numerator <= d {
      assert Enabled(states[k], steps[k]);
    }
  }

  /** `back` falls short of the exact share, points * asked / d, by less than `n` points. */
  predicate ShortByLessThan(points: int, asked: int, d: int, back: int, n: int) {
    points * asked < d * (back + n)
  }

  /** Partial refunds of one earning, interleaved with anything. While the different refunds ask for
      at most the whole, they never take back more than was earned. They take back the shares of
      all refunds exactly if none met too small a balance each time it was asked for; and then they
      fall short of the exact share by less than one point for each refund. */
  lemma PartialRefunds(states: seq<Book>, steps: seq<Step>, i: nat, r: nat, d: int)
    requires IsRun(states, steps) && i <= |steps| && d > 0 && OneRatioPerPrefix(steps, r, d)
    requires r < |states[i].ledger| && states[i].ledger[r].kind == Earn && Numerators(steps, i, r) <= d
    ensures var l := states[i].ledger; var points := l[r].points; var back := ReversedOf(l, r);
            var n := Refunds(steps, i, r);
            && 0 <= back <= points
            && (back == Shares(steps, i, r, points, d) <==> !Unpaid(states, steps, i, r, points, d))
            && (n > 0 && !Unpaid(states, steps, i, r, points, d)
                ==> ShortByLessThan(points, Numerators(steps, i, r), d, back, n))
  {
    BackVersusShares(states, steps, i, r, d);
    SharesWithin(states, steps, i, r, d);
    OutstandingMeansUnpaid(states, steps, i, r, states[i].ledger[r].points, d);
  }

  const SPENDER := Account(0, 0)
  const EARNED := Book({}, [Entry(SPENDER, Earn, 10, 0, None, None, None, Request(0))])
  const SPENT := Book({}, EARNED.ledger + [Entry(SPENDER, Redeem, -10, 0, None, None, None, Request(1))])
  const SPENDING: seq<Step> := [EarnPoints(SPENDER, 10, 0, None, Request(0)), RedeemPoints(SPENDER, 10, 0, Request(1)),
                                ReverseEarn(0, 0, 1, 1)]

  lemma SpendingIsRun()
    ensures IsRun([Book({}, []), EARNED, SPENT, SPENT], SPENDING) && Refused(SPENT, 0, 1, 1)
  {
    SumsAfter([], EARNED.ledger[0], SPENDER, 0, 0);
    SumsAfter(EARNED.ledger, SPENT.ledger[1], SPENDER, 0, 0);
    assert [] + EARNED.ledger == EARNED.ledger;
    assert Apply(Book({}, []), SPENDING[0]) == EARNED;
    assert Apply(EARNED, SPENDING[1]) == SPENT;
    assert Share(10, 1, 1) == 10 && Balance(SPENT.ledger, SPENDER) == 0;
  }

  /** A refund the trigger refuses: ten points earned and spent, then refunded in full. Nothing is
      taken back, and the bound of less than one point for each refund is missed. */
  lemma RefundMayBeRefused()
    ensures exists states: seq<Book>, steps: seq<Step> ::
              && IsRun(states, steps) && |steps| == 3 && OneRatioPerPrefix(steps, 0, 1)
              && ReversedOf(states[3].ledger, 0) == 0 && Unpaid(states, steps, 3, 0, 10, 1)
              && !ShortByLessThan(10, Numerators(steps, 3, 0), 1, 0, Refunds(steps, 3, 0))
  {
    SpendingIsRun();
    var states, steps := [Book({}, []), EARNED, SPENT, SPENT], SPENDING;
    SumsAfter([], EARNED.ledger[0], SPENDER, 0, 0);
    SumsAfter(EARNED.ledger, SPENT.ledger[1], SPENDER, 0, 0);
    assert [] + EARNED.ledger == EARNED.ledger;
    assert !steps[0].ReverseEarn? && !steps[1].ReverseEarn?;
    assert Numerators(steps, 0, 0) == 0 && Refunds(steps, 0, 0) == 0;
    assert Numerators(steps, 1, 0) == 0;
    assert Refunds(steps, 1, 0) == 0;
    assert Numerators(steps, 2, 0) == 0 && Refunds(steps, 2, 0) == 0 && !Asked(steps, 2, 0, 0);
    assert Numerators(steps, 3, 0) == 1 && Refunds(steps, 3, 0) == 1;
    assert steps[2].ReverseEarn? && steps[2].row == 0 && Share(10, 1, 1) == 10;
    assert Outstanding(steps, 3, 0, 10, 1, states[3].ledger);
    OutstandingMeansUnpaid(states, steps, 3, 0, 10, 1);
  }

  lemma BackVersusShares(states: seq<Book>, steps: seq<Step>, i: nat, r: nat, d: int)
    requires IsRun(states, steps) && i <= |steps| && d > 0 && OneRatioPerPrefix(steps, r, d)
    requires r < |states[i].ledger| && states[i].ledger[r].kind == Earn
    ensures var l := states[i].ledger; var shares := Shares(steps, i, r, l[r].points, d);
            0 <= ReversedOf(l, r) <= shares
            && (ReversedOf(l, r) == shares <==> !Outstanding(steps, i, r, l[r].points, d, l))
  {
    EarnIsPositive(states, steps, i, r);
    RatiosAreOk(states, steps, r, d);
    ReversedIsGranted(states, steps, i, r, d);
    GrantedVersusShares(steps, i, r, states[i].ledger[r].points, d, states[i].ledger);
  }

  lemma SharesWithin(states: seq<Book>, steps: seq<Step>, i: nat, r: nat, d: int)
    requires IsRun(states, steps) && i <= |steps| && d > 0 && OneRatioPerPrefix(steps, r, d)
    requires r < |states[i].ledger| && states[i].ledger[r].kind == Earn && Numerators(steps, i, r) <= d
    ensures var points := states[i].ledger[r].points; var shares := Shares(steps, i, r, points, d);
            var n := Refunds(steps, i, r);
            shares <= points && (n > 0 ==> ShortByLessThan(points, Numerators(steps, i, r), d, shares, n))
  {
    var points := states[i].ledger[r].points;
    EarnIsPositive(states, steps, i, r);
    RatiosAreOk(states, steps, r, d);
    SharesAddUp(steps, i, r, points, d);
    BetweenBounds(points, Numerators(steps, i, r), d, Shares(steps, i, r, points, d), Refunds(steps, i, r));
  }

  lemma EarnIsPositive(states: seq<Book>, steps: seq<Step>, i: nat, r: nat)
    requires IsRun(states, steps) && i <= |steps| && r < |states[i].ledger| && states[i].ledger[r].kind == Earn
    ensures states[i].ledger[r].points > 0
  {
    RunKeeps(states, steps, i);
    assert EntryOk(states[i].ledger, r);
  }

  lemma BetweenBounds(points: int, asked: int, d: int, shares: int, n: nat)
    requires points >= 0 && asked <= d && d > 0 && d * shares <= points * asked <= d * shares + (d - 1) * n
    ensures shares <= points && (n > 0 ==> ShortByLessThan(points, asked, d, shares, n))
  {
    AtMostTheWhole(points, asked, d, shares);
    if n > 0 { ShortByLess(points * asked, d, shares, n); }
  }

  lemma AtMostTheWhole(points: int, asked: int, d: int, shares: int)
    requires points >= 0 && asked <= d && d > 0 && d * shares <= points * asked
    ensures shares <= points
  {
    assert points * asked <= points * d;
    assert d * (shares - points) <= 0;
    if shares > points { ProductIsPositive(d, shares - points); }
  }

  lemma ProductIsPositive(a: int, b: int)
    requires a > 0 && b > 0
    ensures a * b > 0
  {
  }

  lemma ShortByLess(exact: int, d: int, back: int, n: nat)
    requires d > 0 && n > 0 && exact <= d * back + (d - 1) * n
    ensures exact < d * (back + n)
  {
    assert d * (back + n) == d * back + (d - 1) * n + n;
  }

  // --- Calls -------------------------------------------------------------------------------------

  datatype Error = Invalid | NotEligible | Conflict | Insufficient

  /** exactReplay: the row under the key is this very adjustment. The reason is stored as it came
      but compared trimmed. */
  predicate Replays(ledger: seq<Entry>, a: Account, points: int, terms: Terms, key: Key) {
    exists i :: 0 <= i < |ledger| && ledger[i].key == key && IsReplayOf(ledger[i], a, points, terms)
  }

  predicate IsReplayOf(e: Entry, a: Account, points: int, terms: Terms) {
    && e.kind == Adjustment && e.account == a && e.points == points && e.terms.Some?
    && e.terms.value == terms.(reason := Trim(terms.reason))
  }

  /** Repeating an adjustment that was written is taken for a replay exactly if its reason carries no
      white space around it. */
  lemma OwnReplay(b: Book, a: Account, points: int, terms: Terms, key: Key)
    requires Enabled(b, AdjustPoints(a, points, terms, key)) && Apply(b, AdjustPoints(a, points, terms, key)) != b
    ensures Replays(Apply(b, AdjustPoints(a, points, terms, key)).ledger, a, points, terms, key)
            <==> Trim(terms.reason) == terms.reason
  {
    var after := Apply(b, AdjustPoints(a, points, terms, key)).ledger;
    assert after[|b.ledger|].terms == Some(terms);
    if Replays(after, a, points, terms, key) {
      var i :| 0 <= i < |after| && after[i].key == key && IsReplayOf(after[i], a, points, terms);
      if i < |b.ledger| { UnusedAt(b.ledger, key, i); }
    }
  }

  lemma UnusedAt(ledger: seq<Entry>, key: Key, i: nat)
    requires !Used(ledger, key) && i < |ledger|
    ensures ledger[i].key != key
  {
  }

  class PointsService {
    var negative: set<Id>
    var ledger: seq<Entry>

    ghost function View(): Book
      reads this
    {
      Book(negative, ledger)
    }

    constructor (negative: set<Id>)
      ensures View() == Book(negative, []) && Sound(View())
    {
      this.negative, ledger := negative, [];
    }

    /** One guarded insert; false when the guard or the key stopped it. */
    method Insert(e: Entry) returns (inserted: bool)
      modifies this`ledger
      ensures inserted == !Used(old(ledger), e.key)
      ensures ledger == if inserted then old(ledger) + [e] else old(ledger)
    {
      inserted := !Used(ledger, e.key);
      if inserted { ledger := ledger + [e]; }
    }

    /** redeemPoints; `eligible` says whether the programme applies to the sale. */
    method Redeem(a: Account, points: int, order: Id, eligible: bool, key: Id) returns (r: Result<bool, Error>)
      requires Sound(View())
      modifies this`ledger
      ensures Sound(View())
      ensures var s := RedeemPoints(a, points, order, Request(key));
              match r
              case Ok(true) => View() == old(View()) && Used(ledger, Request(key))
              case Ok(false) =>
                eligible && 0 < points <= Balance(old(ledger), a) && View() == Apply(old(View()), s)
                && |ledger| == |old(ledger)| + 1
              case Err(Insufficient) => View() == old(View()) && Balance(ledger, a) < points
                && !Used(ledger, Request(key))
              case Err(_) => View() == old(View()) && !(eligible && 0 < points <= MAX_SAFE)
    {
      if points > MAX_SAFE || points <= 0 { return Err(Invalid); }
      if !eligible { return Err(NotEligible); }
      StepKeepsSound(View(), RedeemPoints(a, points, order, Request(key)));
      var inserted := false;
      if Balance(ledger, a) + -points >= 0 {
        inserted := Insert(Entry(a, Kind.Redeem, -points, order, None, None, None, Request(key)));
      }
      if inserted { return Ok(false); }
      if Used(ledger, Request(key)) { return Ok(true); }
      r := Err(Insufficient);
    }

    /** adjustPoints. */
    method Adjust(a: Account, points: int, terms: Terms, key: Id) returns (r: Result<bool, Error>)
      requires Sound(View())
      modifies this`ledger
      ensures Sound(View())
      ensures r.Ok? <==> (points != 0 && -MAX_SAFE <= points <= MAX_SAFE
                          && if Used(old(ledger), Request(key)) then Replays(ledger, a, points, terms, Request(key))
                             else a.program in negative || Balance(old(ledger), a) + points >= 0)
      ensures r.Ok? ==> View() == Apply(old(View()), AdjustPoints(a, points, terms, Request(key)))
      ensures r.Ok? ==> r.value == Used(old(ledger), Request(key))
      ensures r.Err? ==>
                View() == old(View())
                && r.error == if points == 0 || points < -MAX_SAFE || points > MAX_SAFE then Invalid
                              else if Used(ledger, Request(key)) then Conflict else Insufficient
    {
      if points < -MAX_SAFE || points > MAX_SAFE || points == 0 { return Err(Invalid); }
      if Used(ledger, Request(key)) {
        var i :| 0 <= i < |ledger| && ledger[i].key == Request(key);
        return if IsReplayOf(ledger[i], a, points, terms) then Ok(true) else Err(Conflict);
      }
      StepKeepsSound(View(), AdjustPoints(a, points, terms, Request(key)));
      if a.program in negative || Balance(ledger, a) + points >= 0 {
        var inserted := Insert(Entry(a, Adjustment, points, 0, None, None, Some(terms), Request(key)));
        return Ok(false);
      }
      r := Err(Insufficient);
    }

    /** One earning's turn in a refund; `refused` when the trigger aborts the insert. */
    method ReverseOne(row: nat, prefix: Id, numerator: int, denominator: int) returns (inserted: bool, refused: bool)
      requires Enabled(View(), ReverseEarn(row, prefix, numerator, denominator))
      modifies this`ledger
      ensures View() == Apply(old(View()), ReverseEarn(row, prefix, numerator, denominator))
      ensures refused == Refused(old(View()), row, numerator, denominator)
      ensures |ledger| == |old(ledger)| + if inserted then 1 else 0
    {
      inserted, refused := false, false;
      var earn := ledger[row];
      var points := Share(earn.points, numerator, denominator);
      if points == 0 { return; }
      refused := points > 0 && earn.account.program !in negative && Balance(ledger, earn.account) + -points < 0;
      if !refused {
        inserted := Insert(Entry(earn.account, Reversal, -points, earn.order, None, Some(row), None,
                                 RefundOf(prefix, row)));
      }
    }

    /** reverseTransactionPoints: every earning of the order gives back its share, until one is
        refused; what was written before it stays. */
    method ReverseTransactionPoints(order: Id, prefix: Id, numerator: int, denominator: int)
      returns (r: Result<nat, Error>)
      requires Sound(View())
      modifies this`ledger
      ensures Sound(View())
      ensures if !(0 < numerator <= denominator <= MAX_SAFE) then r == Err(Invalid) && View() == old(View())
              else
                var run := ReverseOrder(old(View()), order, prefix, numerator, denominator, |old(ledger)|);
                && View() == run.book
                && r == if run.stopped.Some? then Err(Insufficient) else Ok(|ledger| - |old(ledger)|)
    {
      if numerator > MAX_SAFE || denominator > MAX_SAFE || numerator <= 0 || denominator <= 0
        || numerator > denominator {
        return Err(Invalid);
      }
      var made, stopped := ReverseRows(order, prefix, numerator, denominator);
      r := if stopped.Some? then Err(Insufficient) else Ok(made);
    }

    /** The loop over the rows, up to the first that is refused. */
    method ReverseRows(order: Id, prefix: Id, numerator: int, denominator: int)
      returns (made: nat, stopped: Option<nat>)
      requires Sound(View()) && 0 < numerator <= denominator
      modifies this`ledger
      ensures Sound(View()) && made == |ledger| - |old(ledger)|
      ensures ReverseOrder(old(View()), order, prefix, numerator, denominator, |old(ledger)|) == Run(View(), stopped)
    {
      ghost var start := View();
      var n, i := |ledger|, 0;
      made, stopped := 0, None;
      while i < n && stopped.None?
        invariant i <= n == |start.ledger| && made == |ledger| - |start.ledger|
        invariant Reached(start, order, prefix, numerator, denominator, i, Run(View(), stopped))
      {
        var inserted, refused := ReverseTurn(start, order, prefix, numerator, denominator, i);
        if refused { stopped := Some(i); }
        if inserted { made := made + 1; }
        i := i + 1;
      }
      ReachesTheEnd(start, order, prefix, numerator, denominator, i, Run(View(), stopped));
    }

    /** The turn of row `i`: nothing unless it is an earning of the order. */
    method ReverseTurn(ghost start: Book, order: Id, prefix: Id, numerator: int, denominator: int, i: nat)
      returns (inserted: bool, refused: bool)
      requires i < |start.ledger| && Reached(start, order, prefix, numerator, denominator, i, Run(View(), None))
      modifies this`ledger
      ensures |ledger| == |old(ledger)| + if inserted then 1 else 0
      ensures Reached(start, order, prefix, numerator, denominator, i + 1,
                      Run(View(), if refused then Some(i) else None))
    {
      inserted, refused := false, false;
      OneMoreEarning(start, View(), order, prefix, numerator, denominator, i);
      if ledger[i].kind == Earn && ledger[i].order == order {
        inserted, refused := ReverseOne(i, prefix, numerator, denominator);
      }
    }

    /** The insert of one planned expiry. */
    method ExpireOne(a: Account, asOf: Time, points: int) returns (inserted: bool)
      requires points == ToExpire(ledger, a, asOf) && Due(ledger, a, asOf) > Expired(ledger, a)
      requires Balance(ledger, a) > 0
      modifies this`ledger
      ensures View() == ExpireNow(old(View()), a, asOf)
      ensures |ledger| == |old(ledger)| + if inserted then 1 else 0
    {
      inserted := Insert(Entry(a, Expiry, -points, 0, None, None, None, Daily(a, asOf / DAY)));
    }

    /** The query of expirePoints: what each account that has rows should lose. */
    method PlanExpiry(accounts: seq<Account>, asOf: Time) returns (plan: seq<Option<int>>)
      ensures |plan| == |accounts| && forall i :: 0 <= i < |accounts| ==> plan[i] == PlanFor(ledger, accounts[i], asOf)
    {
      plan := [];
      for i := 0 to |accounts|
        invariant |plan| == i && forall j :: 0 <= j < i ==> plan[j] == PlanFor(ledger, accounts[j], asOf)
      {
        plan := plan + [PlanFor(ledger, accounts[i], asOf)];
      }
    }

    /** expirePoints: all accounts are read first, then the rows are inserted one by one. */
    method ExpirePoints(asOf: Time) returns (expiredEntries: nat)
      requires Sound(View())
      modifies this`ledger
      ensures Sound(View()) && |ledger| == |old(ledger)| + expiredEntries
      ensures var accounts := AccountsOf(old(ledger)); View() == ExpireAll(old(View()), accounts, asOf, |accounts|)
    {
      expiredEntries := 0;
      var accounts := AccountsOf(ledger);
      AccountsDiffer(ledger);
      var plan := PlanExpiry(accounts, asOf);
      ghost var before := View();
      for i := 0 to |accounts|
        invariant |ledger| == |before.ledger| + expiredEntries && ExpiredUpTo(before, View(), accounts, asOf, i)
      {
        var inserted := ExpirePlanned(before, accounts, asOf, i, plan[i]);
        if inserted { expiredEntries := expiredEntries + 1; }
      }
    }

    /** One planned account's turn. */
    method ExpirePlanned(ghost before: Book, accounts: seq<Account>, asOf: Time, i: nat, planned: Option<int>)
      returns (inserted: bool)
      requires ExpiredUpTo(before, View(), accounts, asOf, i) && i < |accounts|
      requires planned == PlanFor(before.ledger, accounts[i], asOf)
      requires forall j, k :: 0 <= j < k < |accounts| ==> accounts[j] != accounts[k]
      modifies this`ledger
      ensures ExpiredUpTo(before, View(), accounts, asOf, i + 1)
      ensures |ledger| == |old(ledger)| + if inserted then 1 else 0
    {
      inserted := false;
      ExpireNext(before, View(), accounts, asOf, i);
      if planned.Some? { inserted := ExpireOne(accounts[i], asOf, planned.value); }
    }
  }

  /** The first `i` accounts have been expired, the others are as they were when they were read. */
  ghost predicate ExpiredUpTo(before: Book, now: Book, accounts: seq<Account>, asOf: Time, i: nat) {
    && i <= |accounts| && Sound(now) && now == ExpireAll(before, accounts, asOf, i)
    && forall j :: i <= j < |accounts| ==> SameSums(before.ledger, now.ledger, accounts[j], asOf)
  }

  lemma ExpireNext(before: Book, now: Book, accounts: seq<Account>, asOf: Time, i: nat)
    requires ExpiredUpTo(before, now, accounts, asOf, i) && i < |accounts|
    requires forall j, k :: 0 <= j < k < |accounts| ==> accounts[j] != accounts[k]
    ensures PlanFor(now.ledger, accounts[i], asOf) == PlanFor(before.ledger, accounts[i], asOf)
    ensures PlanFor(now.ledger, accounts[i], asOf).None? ==> ExpireNow(now, accounts[i], asOf) == now
    ensures ExpiredUpTo(before, ExpireNow(now, accounts[i], asOf), accounts, asOf, i + 1)
  {
    var after := ExpireNow(now, accounts[i], asOf);
    assert SameSums(before.ledger, now.ledger, accounts[i], asOf);
    StepKeepsSound(now, ExpireAccount(accounts[i], asOf, now.ledger));
    forall j | i < j < |accounts| ensures SameSums(before.ledger, after.ledger, accounts[j], asOf) {
      OtherSumsStay(now, accounts[i], accounts[j], asOf);
    }
  }

  /** The accounts that have rows, each once. */
  function AccountsOf(ledger: seq<Entry>): seq<Account> {
    if ledger == [] then []
    else
      var before := AccountsOf(ledger[..|ledger| - 1]);
      if ledger[|ledger| - 1].account in before then before else before + [ledger[|ledger| - 1].account]
  }

  /** They are all of them. */
  lemma {:induction false} AccountsAreAll(ledger: seq<Entry>, a: Account)
    ensures a in AccountsOf(ledger) <==> exists i :: 0 <= i < |ledger| && ledger[i].account == a
  {
    if ledger != [] {
      var rest := ledger[..|ledger| - 1];
      AccountsAreAll(rest, a);
      if exists i :: 0 <= i < |ledger| && ledger[i].account == a {
        var i :| 0 <= i < |ledger| && ledger[i].account == a;
        if i < |rest| { assert rest[i].account == a; }
      }
      if exists i :: 0 <= i < |rest| && rest[i].account == a {
        var i :| 0 <= i < |rest| && rest[i].account == a;
        assert ledger[i].account == a;
      }
      assert ledger[|rest|] == ledger[|ledger| - 1];
    }
  }

  lemma {:induction false} AccountsDiffer(ledger: seq<Entry>)
    ensures forall i, j :: 0 <= i < j < |AccountsOf(ledger)| ==> AccountsOf(ledger)[i] != AccountsOf(ledger)[j]
  {
    if ledger != [] { AccountsDiffer(ledger[..|ledger| - 1]); }
  }

  predicate SameSums(before: seq<Entry>, after: seq<Entry>, a: Account, asOf: Time) {
    Balance(after, a) == Balance(before, a) && Due(after, a, asOf) == Due(before, a, asOf)
    && Expired(after, a) == Expired(before, a)
  }

  lemma OtherSumsStay(b: Book, a: Account, other: Account, asOf: Time)
    requires a != other
    ensures SameSums(b.ledger, ExpireNow(b, a, asOf).ledger, other, asOf)
  {
    if ExpireNow(b, a, asOf) != b {
      SumsAfter(b.ledger, Proposed(b, ExpireAccount(a, asOf, b.ledger)).value, other, 0, asOf);
    }
  }

  /** A refund of an order so far: the book, and the row at which the trigger stopped it. */
  datatype Run = Run(book: Book, stopped: Option<nat>)

  predicate EarnedBy(b: Book, row: nat, order: Id)
    requires row < |b.ledger|
  {
    b.ledger[row].kind == Earn && b.ledger[row].order == order
  }

  /** One refund of an order: each of its earnings among the first `n` rows, in turn. */
  function ReverseOrder(b: Book, order: Id, prefix: Id, num: int, den: int, n: nat): (after: Run)
    requires n <= |b.ledger| && 0 < num <= den
    ensures b.ledger <= after.book.ledger && after.book.negative == b.negative
    ensures after.stopped.Some? ==> after.stopped.value < n
  {
    if n == 0 then Run(b, None)
    else
      var before := ReverseOrder(b, order, prefix, num, den, n - 1);
      if before.stopped.Some? || !EarnedBy(b, n - 1, order) then before
      else if Refused(before.book, n - 1, num, den) then Run(before.book, Some(n - 1))
      else Run(Apply(before.book, ReverseEarn(n - 1, prefix, num, den)), None)
  }

  lemma OneMoreEarning(b: Book, now: Book, order: Id, prefix: Id, num: int, den: int, n: nat)
    requires n < |b.ledger| && 0 < num <= den && ReverseOrder(b, order, prefix, num, den, n) == Run(now, None)
    ensures n < |now.ledger| && EarnedBy(now, n, order) == EarnedBy(b, n, order)
    ensures var next := ReverseOrder(b, order, prefix, num, den, n + 1);
            if !EarnedBy(now, n, order) then next == Run(now, None)
            else if Refused(now, n, num, den)
            then next == Run(now, Some(n)) && Apply(now, ReverseEarn(n, prefix, num, den)) == now
            else next == Run(Apply(now, ReverseEarn(n, prefix, num, den)), None)
  {
  }

  lemma {:induction false} OrderKeepsSound(b: Book, order: Id, prefix: Id, num: int, den: int, n: nat)
    requires n <= |b.ledger| && 0 < num <= den && Sound(b)
    ensures Sound(ReverseOrder(b, order, prefix, num, den, n).book)
  {
    if n > 0 {
      OrderKeepsSound(b, order, prefix, num, den, n - 1);
      NextKeepsSound(b, order, prefix, num, den, n - 1);
    }
  }

  lemma NextKeepsSound(b: Book, order: Id, prefix: Id, num: int, den: int, n: nat)
    requires n < |b.ledger| && 0 < num <= den && Sound(ReverseOrder(b, order, prefix, num, den, n).book)
    ensures Sound(ReverseOrder(b, order, prefix, num, den, n + 1).book)
  {
    var before := ReverseOrder(b, order, prefix, num, den, n);
    if before.stopped.Some? {
      StopsNext(b, order, prefix, num, den, n);
    } else {
      OneMoreEarning(b, before.book, order, prefix, num, den, n);
      if EarnedBy(before.book, n, order) { StepKeepsSound(before.book, ReverseEarn(n, prefix, num, den)); }
    }
  }

  lemma StopsNext(b: Book, order: Id, prefix: Id, num: int, den: int, n: nat)
    requires n < |b.ledger| && 0 < num <= den && ReverseOrder(b, order, prefix, num, den, n).stopped.Some?
    ensures ReverseOrder(b, order, prefix, num, den, n + 1) == ReverseOrder(b, order, prefix, num, den, n)
  {
  }

  lemma {:induction false} StopsForGood(b: Book, order: Id, prefix: Id, num: int, den: int, m: nat, n: nat)
    requires m <= n <= |b.ledger| && 0 < num <= den && ReverseOrder(b, order, prefix, num, den, m).stopped.Some?
    ensures ReverseOrder(b, order, prefix, num, den, n) == ReverseOrder(b, order, prefix, num, den, m)
    decreases n - m
  {
    if m < n {
      StopsNext(b, order, prefix, num, den, m);
      StopsForGood(b, order, prefix, num, den, m + 1, n);
    }
  }

  function ExpireAll(b: Book, accounts: seq<Account>, asOf: Time, n: nat): (after: Book)
    requires n <= |accounts|
    ensures b.ledger <= after.ledger && after.negative == b.negative
  {
    if n == 0 then b else ExpireNow(ExpireAll(b, accounts, asOf, n - 1), accounts[n - 1], asOf)
  }

  /** The refund has come to `run` after the first `n` rows. */
  ghost predicate Reached(b: Book, order: Id, prefix: Id, num: int, den: int, n: nat, run: Run) {
    n <= |b.ledger| && 0 < num <= den && ReverseOrder(b, order, prefix, num, den, n) == run
  }

  lemma ReachesTheEnd(b: Book, order: Id, prefix: Id, num: int, den: int, n: nat, run: Run)
    requires Reached(b, order, prefix, num, den, n, run) && (n == |b.ledger| || run.stopped.Some?) && Sound(b)
    ensures ReverseOrder(b, order, prefix, num, den, |b.ledger|) == run && Sound(run.book)
  {
    if run.stopped.Some? { StopsForGood(b, order, prefix, num, den, n, |b.ledger|); }
    OrderKeepsSound(b, order, prefix, num, den, n);
  }

  /** An earning has given its share back, or has none to give. */
  predicate Settled(b: Book, row: nat, prefix: Id, num: int, den: int)
    requires row < |b.ledger| && den > 0
  {
    Share(b.ledger[row].points, num, den) == 0 || Used(b.ledger, RefundOf(prefix, row))
  }

  lemma StepSettles(b: Book, row: nat, prefix: Id, num: int, den: int)
    requires Enabled(b, ReverseEarn(row, prefix, num, den)) && !Refused(b, row, num, den)
    ensures var after := Apply(b, ReverseEarn(row, prefix, num, den));
            b.ledger <= after.ledger && Settled(after, row, prefix, num, den)
  {
    var s := ReverseEarn(row, prefix, num, den);
    if Proposed(b, s).Some? && !Used(b.ledger, Proposed(b, s).value.key) {
      UsedAfter(b.ledger, Proposed(b, s).value, RefundOf(prefix, row));
    }
  }

  lemma SettledStays(b: Book, after: Book, row: nat, prefix: Id, num: int, den: int)
    requires row < |b.ledger| && den > 0 && b.ledger <= after.ledger && Settled(b, row, prefix, num, den)
    ensures Settled(after, row, prefix, num, den)
  {
    if Used(b.ledger, RefundOf(prefix, row)) { KeyStays(b.ledger, after.ledger, RefundOf(prefix, row)); }
  }

  /** The next earning is settled unless the refund stops at it, and the settled ones stay so. */
  lemma TurnSettles(b: Book, now: Book, order: Id, prefix: Id, num: int, den: int, n: nat, row: nat)
    requires row <= n < |b.ledger| && 0 < num <= den && EarnedBy(b, row, order)
    requires ReverseOrder(b, order, prefix, num, den, n) == Run(now, None)
    requires row < n ==> Settled(now, row, prefix, num, den)
    ensures var next := ReverseOrder(b, order, prefix, num, den, n + 1);
            row < n || next.stopped.None? ==> Settled(next.book, row, prefix, num, den)
  {
    OneMoreEarning(b, now, order, prefix, num, den, n);
    var next := ReverseOrder(b, order, prefix, num, den, n + 1).book;
    if row < n {
      assert now.ledger <= next.ledger;
      SettledStays(now, next, row, prefix, num, den);
    } else if !Refused(now, n, num, den) {
      StepSettles(now, row, prefix, num, den);
    }
  }

  /** The earning is settled unless the refund stopped at it or before. */
  predicate SettledBy(run: Run, row: nat, prefix: Id, num: int, den: int)
    requires row < |run.book.ledger| && den > 0
  {
    run.stopped.None? || row < run.stopped.value ==> Settled(run.book, row, prefix, num, den)
  }

  lemma NextSettles(b: Book, order: Id, prefix: Id, num: int, den: int, n: nat, row: nat)
    requires row <= n < |b.ledger| && 0 < num <= den && EarnedBy(b, row, order)
    requires row < n ==> SettledBy(ReverseOrder(b, order, prefix, num, den, n), row, prefix, num, den)
    ensures SettledBy(ReverseOrder(b, order, prefix, num, den, n + 1), row, prefix, num, den)
  {
    var before := ReverseOrder(b, order, prefix, num, den, n);
    if before.stopped.Some? { StopsNext(b, order, prefix, num, den, n); }
    else { TurnSettles(b, before.book, order, prefix, num, den, n, row); }
  }

  /** A refund settles the order's earnings up to the one it stops at; if it does not stop, all. */
  lemma {:induction false} RefundSettles(b: Book, order: Id, prefix: Id, num: int, den: int, n: nat, row: nat)
    requires row < n <= |b.ledger| && 0 < num <= den && EarnedBy(b, row, order)
    ensures SettledBy(ReverseOrder(b, order, prefix, num, den, n), row, prefix, num, den)
  {
    if row < n - 1 { RefundSettles(b, order, prefix, num, den, n - 1, row); }
    NextSettles(b, order, prefix, num, den, n - 1, row);
  }

  /** It stops at an earning of the order whose share the balance does not cover. */
  lemma {:induction false} StopIsRefused(b: Book, order: Id, prefix: Id, num: int, den: int, n: nat)
    requires n <= |b.ledger| && 0 < num <= den && ReverseOrder(b, order, prefix, num, den, n).stopped.Some?
    ensures var after := ReverseOrder(b, order, prefix, num, den, n);
            EarnedBy(b, after.stopped.value, order) && Refused(after.book, after.stopped.value, num, den)
  {
    if ReverseOrder(b, order, prefix, num, den, n - 1).stopped.Some? {
      StopIsRefused(b, order, prefix, num, den, n - 1);
    }
  }

  /** A refund takes nothing back for rows other than the order's earnings. */
  lemma {:induction false} OtherRowsStay(b: Book, order: Id, prefix: Id, num: int, den: int, n: nat, row: nat)
    requires n <= |b.ledger| && row < |b.ledger| && 0 < num <= den && !EarnedBy(b, row, order)
    ensures SameRefund(b.ledger, ReverseOrder(b, order, prefix, num, den, n).book.ledger, prefix, row)
  {
    if n > 0 {
      OtherRowsStay(b, order, prefix, num, den, n - 1, row);
      NextStays(b, order, prefix, num, den, n - 1, row);
    }
  }

  lemma NextStays(b: Book, order: Id, prefix: Id, num: int, den: int, n: nat, row: nat)
    requires n < |b.ledger| && row < |b.ledger| && 0 < num <= den && !EarnedBy(b, row, order)
    ensures SameRefund(ReverseOrder(b, order, prefix, num, den, n).book.ledger,
                       ReverseOrder(b, order, prefix, num, den, n + 1).book.ledger, prefix, row)
  {
    var before := ReverseOrder(b, order, prefix, num, den, n);
    if before.stopped.Some? { StopsNext(b, order, prefix, num, den, n); }
    else { TurnIsOfOrder(b, before.book, order, prefix, num, den, n, row); }
  }

  /** What was taken back for a row under a prefix is as it was. */
  predicate SameRefund(before: seq<Entry>, after: seq<Entry>, prefix: Id, row: nat) {
    && ReversedOf(after, row) == ReversedOf(before, row)
    && (Used(after, RefundOf(prefix, row)) <==> Used(before, RefundOf(prefix, row)))
  }

  lemma TurnIsOfOrder(b: Book, now: Book, order: Id, prefix: Id, num: int, den: int, n: nat, row: nat)
    requires n < |b.ledger| && row < |b.ledger| && 0 < num <= den && !EarnedBy(b, row, order)
    requires ReverseOrder(b, order, prefix, num, den, n) == Run(now, None)
    ensures SameRefund(now.ledger, ReverseOrder(b, order, prefix, num, den, n + 1).book.ledger, prefix, row)
  {
    OneMoreEarning(b, now, order, prefix, num, den, n);
    if n != row { TurnSparesRow(now, n, prefix, num, den, row); }
  }

  lemma TurnSparesRow(b: Book, turn: nat, prefix: Id, num: int, den: int, row: nat)
    requires turn != row && turn < |b.ledger| && 0 < num <= den
    ensures Enabled(b, ReverseEarn(turn, prefix, num, den)) ==>
              SameRefund(b.ledger, Apply(b, ReverseEarn(turn, prefix, num, den)).ledger, prefix, row)
  {
    var s := ReverseEarn(turn, prefix, num, den);
    if Enabled(b, s) && Apply(b, s) != b {
      SumsAfter(b.ledger, Proposed(b, s).value, b.ledger[turn].account, row, 0);
      UsedAfter(b.ledger, Proposed(b, s).value, RefundOf(prefix, row));
    }
  }

  /** A refund that was not stopped has taken its share back for every earning of the order that is worth a
      point of it; one that was stopped, for those before the stop; and for nothing else. */
  lemma RefundReaches(b: Book, order: Id, prefix: Id, num: int, den: int, row: nat)
    requires row < |b.ledger| && 0 < num <= den && Sound(b)
    ensures var run := ReverseOrder(b, order, prefix, num, den, |b.ledger|);
            var e := b.ledger[row]; var taken := Used(run.book.ledger, RefundOf(prefix, row));
            if e.kind == Earn && e.order == order
            then (run.stopped.None? || row < run.stopped.value) && e.points * num >= den ==> taken
            else ReversedOf(run.book.ledger, row) == ReversedOf(b.ledger, row)
                 && (taken <==> Used(b.ledger, RefundOf(prefix, row)))
  {
    if b.ledger[row].kind == Earn && b.ledger[row].order == order {
      RefundSettles(b, order, prefix, num, den, |b.ledger|, row);
      assert EntryOk(b.ledger, row);
      if b.ledger[row].points * num >= den { WorthAPoint(b.ledger[row].points, num, den); }
    } else {
      OtherRowsStay(b, order, prefix, num, den, |b.ledger|, row);
    }
  }

  lemma WorthAPoint(points: int, num: int, den: int)
    requires den > 0 && points * num >= den
    ensures Share(points, num, den) > 0
  {
    var q := points * num / den;
    assert points * num < (q + 1) * den;
    if q < 1 { NoSmaller(q, 1, den); }
  }

  predicate OnlyReversalsFrom(ledger: seq<Entry>, n: nat) {
    forall k :: n <= k < |ledger| ==> ledger[k].kind == Reversal
  }

  lemma {:induction false} NewRowsAreReversals(b: Book, order: Id, prefix: Id, num: int, den: int, n: nat)
    requires n <= |b.ledger| && 0 < num <= den
    ensures OnlyReversalsFrom(ReverseOrder(b, order, prefix, num, den, n).book.ledger, |b.ledger|)
  {
    if n > 0 {
      NewRowsAreReversals(b, order, prefix, num, den, n - 1);
      assert ReverseOrder(b, order, prefix, num, den, n - 1).book.ledger[n - 1].kind == b.ledger[n - 1].kind;
    }
  }

  /** The first `m` rows of a repetition of `once` change nothing, and stop where it was stopped. */
  predicate RepeatsIdly(once: Run, order: Id, prefix: Id, num: int, den: int, m: nat)
    requires 0 < num <= den && m <= |once.book.ledger|
  {
    var again := ReverseOrder(once.book, order, prefix, num, den, m);
    again.book == once.book && (once.stopped.Some? && once.stopped.value < m ==> again.stopped.Some?)
  }

  /** A refund repeated at once under its prefix and ratio adds nothing, whether or not the first
      one was stopped; if it was, so is the repetition. */
  lemma {:induction false} RepeatedRefundAddsNothing(b: Book, order: Id, prefix: Id, num: int, den: int, m: nat)
    requires 0 < num <= den && m <= |ReverseOrder(b, order, prefix, num, den, |b.ledger|).book.ledger|
    ensures RepeatsIdly(ReverseOrder(b, order, prefix, num, den, |b.ledger|), order, prefix, num, den, m)
  {
    if m > 0 {
      RepeatedRefundAddsNothing(b, order, prefix, num, den, m - 1);
      RefundFacts(b, order, prefix, num, den, m - 1);
      RepeatStep(ReverseOrder(b, order, prefix, num, den, |b.ledger|), order, prefix, num, den, m);
    }
  }

  /** What a refund leaves to do at a row of the ledger after it. */
  lemma RefundFacts(b: Book, order: Id, prefix: Id, num: int, den: int, row: nat)
    requires 0 < num <= den && row < |ReverseOrder(b, order, prefix, num, den, |b.ledger|).book.ledger|
    ensures var once := ReverseOrder(b, order, prefix, num, den, |b.ledger|);
            && (once.stopped == Some(row) ==> EarnedBy(once.book, row, order) && Refused(once.book, row, num, den))
            && (EarnedBy(once.book, row, order) && (once.stopped.None? || row < once.stopped.value) ==>
                  Apply(once.book, ReverseEarn(row, prefix, num, den)) == once.book)
  {
    var once := ReverseOrder(b, order, prefix, num, den, |b.ledger|);
    NewRowsAreReversals(b, order, prefix, num, den, |b.ledger|);
    if once.stopped.Some? { StopIsRefused(b, order, prefix, num, den, |b.ledger|); }
    if EarnedBy(once.book, row, order) {
      assert row < |b.ledger| && b.ledger[row] == once.book.ledger[row];
      RefundSettles(b, order, prefix, num, den, |b.ledger|, row);
      if Settled(once.book, row, prefix, num, den) { SettledIsDone(once.book, row, prefix, num, den); }
    }
  }

  lemma SettledIsDone(b: Book, row: nat, prefix: Id, num: int, den: int)
    requires Enabled(b, ReverseEarn(row, prefix, num, den)) && Settled(b, row, prefix, num, den)
    ensures Apply(b, ReverseEarn(row, prefix, num, den)) == b
  {
  }

  lemma RepeatStep(once: Run, order: Id, prefix: Id, num: int, den: int, m: nat)
    requires 0 < m <= |once.book.ledger| && 0 < num <= den && RepeatsIdly(once, order, prefix, num, den, m - 1)
    requires once.stopped == Some(m - 1) ==> EarnedBy(once.book, m - 1, order) && Refused(once.book, m - 1, num, den)
    requires EarnedBy(once.book, m - 1, order) && (once.stopped.None? || m - 1 < once.stopped.value) ==>
               Apply(once.book, ReverseEarn(m - 1, prefix, num, den)) == once.book
    ensures RepeatsIdly(once, order, prefix, num, den, m)
  {
  }

  /** Expiring one account leaves another as it was. */
  lemma OtherAccountsStay(b: Book, a: Account, other: Account, asOf: Time)
    requires ExpireNow(b, other, asOf) == b
    ensures var after := ExpireNow(b, a, asOf); ExpireNow(after, other, asOf) == after
  {
    var after := ExpireNow(b, a, asOf);
    if after != b {
      SumsAfter(b.ledger, Proposed(b, ExpireAccount(a, asOf, b.ledger)).value, other, 0, asOf);
      var key := Daily(other, asOf / DAY);
      if Used(b.ledger, key) {
        var k :| 0 <= k < |b.ledger| && b.ledger[k].key == key;
        assert after.ledger[k].key == key;
      }
    }
  }

  lemma {:induction false} ExpiriesStayDone(b: Book, accounts: seq<Account>, asOf: Time, n: nat, i: nat)
    requires i < n <= |accounts|
    ensures var after := ExpireAll(b, accounts, asOf, n); ExpireNow(after, accounts[i], asOf) == after
  {
    var before := ExpireAll(b, accounts, asOf, n - 1);
    if i < n - 1 {
      ExpiriesStayDone(b, accounts, asOf, n - 1, i);
      OtherAccountsStay(before, accounts[n - 1], accounts[i], asOf);
    } else {
      SecondExpiryAddsNothing(before, accounts[i], asOf);
    }
  }

  /** A second run over all accounts at the same time adds nothing. */
  lemma {:induction false} SecondRunAddsNothing(b: Book, accounts: seq<Account>, asOf: Time, m: nat)
    requires m <= |accounts|
    ensures var once := ExpireAll(b, accounts, asOf, |accounts|); ExpireAll(once, accounts, asOf, m) == once
  {
    if m > 0 {
      SecondRunAddsNothing(b, accounts, asOf, m - 1);
      ExpiriesStayDone(b, accounts, asOf, |accounts|, m - 1);
    }
  }
}
