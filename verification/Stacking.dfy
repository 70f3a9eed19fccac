/** Stacking of vouchers on one order: which of the candidate discounts are applied, and in what order. */
module Stacking {
  import opened Common

  datatype Policy = Allow | Block | BestOnly | PriorityOrder

  datatype Candidate = Candidate(id: Id, discount: int, policy: Policy, priority: int)

  /** The two comparators: priority first, or the largest discount first; ids break ties. */
  datatype Ranking = ByPriority | ByDiscount

  predicate Above(k: Ranking, a: Candidate, b: Candidate) {
    match k
    case ByPriority => a.priority < b.priority
      || (a.priority == b.priority && (a.discount > b.discount || (a.discount == b.discount && a.id < b.id)))
    case ByDiscount => a.discount > b.discount || (a.discount == b.discount && a.id < b.id)
  }

  /** No two different candidates share an id. */
  ghost predicate DistinctIds(s: seq<Candidate>) {
    forall i, j :: 0 <= i < |s| && 0 <= j < |s| && s[i].id == s[j].id ==> s[i] == s[j]
  }

  ghost predicate Ranked(k: Ranking, s: seq<Candidate>) {
    forall i, j :: 0 <= i < j < |s| ==> !Above(k, s[j], s[i])
  }

  // --- Sorting ----------------------------------------------------------------------------------

  /** A stable insertion: `x` goes before the first element that does not rank above it. */
  function Insert(k: Ranking, x: Candidate, s: seq<Candidate>): seq<Candidate> {
    if s == [] || !Above(k, s[0], x) then [x] + s else [s[0]] + Insert(k, x, s[1..])
  }

  function Sort(k: Ranking, s: seq<Candidate>): seq<Candidate> {
    if s == [] then [] else Insert(k, s[0], Sort(k, s[1..]))
  }

  lemma {:induction false} InsertKeepsMembers(k: Ranking, x: Candidate, s: seq<Candidate>)
    ensures multiset(Insert(k, x, s)) == multiset(s) + multiset{x}
  {
    if s == [] || !Above(k, s[0], x) {
    } else {
      InsertKeepsMembers(k, x, s[1..]);
      assert s == [s[0]] + s[1..];
    }
  }

  lemma {:induction false} InsertKeepsRanked(k: Ranking, x: Candidate, s: seq<Candidate>)
    requires Ranked(k, s)
    ensures Ranked(k, Insert(k, x, s))
  {
    if s == [] {
    } else if !Above(k, s[0], x) {
      forall j | 0 <= j < |s| ensures !Above(k, s[j], x) { if j > 0 { assert !Above(k, s[j], s[0]); } }
    } else {
      InsertKeepsRanked(k, x, s[1..]);
      InsertKeepsMembers(k, x, s[1..]);
      var rest := Insert(k, x, s[1..]);
      forall j | 0 <= j < |rest| ensures !Above(k, rest[j], s[0]) {
        assert rest[j] in multiset(rest);
        assert rest[j] == x || rest[j] in s[1..];
      }
    }
  }

  lemma {:induction false} SortRanks(k: Ranking, s: seq<Candidate>)
    ensures multiset(Sort(k, s)) == multiset(s) && Ranked(k, Sort(k, s))
  {
    if s != [] {
      SortRanks(k, s[1..]);
      InsertKeepsMembers(k, s[0], Sort(k, s[1..]));
      InsertKeepsRanked(k, s[0], Sort(k, s[1..]));
      assert s == [s[0]] + s[1..];
    }
  }

  predicate Has(s: seq<Candidate>, p: Policy) {
    exists i :: 0 <= i < |s| && s[i].policy == p
  }

  /** Array.find on the policy. */
  function Find(s: seq<Candidate>, p: Policy): Option<Candidate> {
    if s == [] then None else if s[0].policy == p then Some(s[0]) else Find(s[1..], p)
  }

  lemma {:induction false} FindIsFirst(s: seq<Candidate>, p: Policy)
    ensures Find(s, p).Some? <==> Has(s, p)
    ensures Has(s, p) ==>
              exists i :: 0 <= i < |s| && s[i] == Find(s, p).value && s[i].policy == p
                          && forall j :: 0 <= j < i ==> s[j].policy != p
  {
    if s != [] && s[0].policy != p {
      FindIsFirst(s[1..], p);
      if Has(s, p) {
        var m :| 0 <= m < |s| && s[m].policy == p;
        assert s[1..][m - 1].policy == p;
        var i :| 0 <= i < |s[1..]| && s[1..][i] == Find(s[1..], p).value && s[1..][i].policy == p
          && forall j :: 0 <= j < i ==> s[1..][j].policy != p;
        assert s[i + 1] == s[1..][i];
        forall j | 0 <= j < i + 1 ensures s[j].policy != p { if j > 0 { assert s[j] == s[1..][j - 1]; } }
      }
    }
  }

  /** applyStacking. */
  function ApplyStacking(candidates: seq<Candidate>): seq<Candidate> {
    if candidates == [] then []
    else
      var ordered := Sort(ByPriority, candidates);
      if Has(ordered, BestOnly) then
        SortKeepsLength(ByPriority, candidates); SortKeepsLength(ByDiscount, ordered);
        [Sort(ByDiscount, ordered)[0]]
      else match Find(ordered, Block)
        case Some(blocker) => [blocker]
        case None => ordered
  }

  lemma SortKeepsLength(k: Ranking, s: seq<Candidate>)
    ensures |Sort(k, s)| == |s|
  {
    SortRanks(k, s);
    SameMembersSize(s, Sort(k, s));
  }

  // --- What it returns ------------------------------------------------------------------------------

  lemma SameMembers(a: seq<Candidate>, b: seq<Candidate>, x: Candidate)
    requires multiset(a) == multiset(b)
    ensures |a| == |b| && (x in a <==> x in b)
  {
    assert x in a <==> x in multiset(a);
    assert |multiset(a)| == |multiset(b)|;
  }

  /** The first of a ranked list is ranked above no other, so it is determined up to its id. */
  lemma SameFirst(k: Ranking, a: seq<Candidate>, b: seq<Candidate>)
    requires multiset(a) == multiset(b) && DistinctIds(a) && Ranked(k, a) && Ranked(k, b) && a != [] && b != []
    ensures a[0] == b[0]
  {
    SameMembers(a, b, a[0]);
    SameMembers(a, b, b[0]);
    var i :| 0 <= i < |b| && b[i] == a[0];
    var j :| 0 <= j < |a| && a[j] == b[0];
    assert i > 0 ==> !Above(k, b[i], b[0]);
    assert j > 0 ==> !Above(k, a[j], a[0]);
  }

  /** Among candidates with different ids any two are ranked, so a ranked list is determined. */
  lemma {:induction false} RankedIsUnique(k: Ranking, a: seq<Candidate>, b: seq<Candidate>)
    requires multiset(a) == multiset(b) && DistinctIds(a) && Ranked(k, a) && Ranked(k, b)
    ensures a == b
  {
    SameMembersSize(a, b);
    if a != [] {
      SameFirst(k, a, b);
      TailMembers(a);
      TailMembers(b);
      RankedIsUnique(k, a[1..], b[1..]);
      assert a == [a[0]] + a[1..] && b == [b[0]] + b[1..];
    }
  }

  lemma TailMembers(s: seq<Candidate>)
    requires s != []
    ensures multiset(s[1..]) == multiset(s) - multiset{s[0]}
  {
    assert s == [s[0]] + s[1..];
  }

  lemma SameMembersSize(a: seq<Candidate>, b: seq<Candidate>)
    requires multiset(a) == multiset(b)
    ensures |a| == |b|
  {
    assert |multiset(a)| == |multiset(b)|;
  }

  lemma PermutedIdsStayDistinct(a: seq<Candidate>, b: seq<Candidate>)
    requires multiset(a) == multiset(b) && DistinctIds(a)
    ensures DistinctIds(b)
  {
    forall i, j | 0 <= i < |b| && 0 <= j < |b| && b[i].id == b[j].id ensures b[i] == b[j] {
      SameMembers(a, b, b[i]);
      SameMembers(a, b, b[j]);
    }
  }

  lemma SortIgnoresOrder(k: Ranking, a: seq<Candidate>, b: seq<Candidate>)
    requires multiset(a) == multiset(b) && DistinctIds(a)
    ensures Sort(k, a) == Sort(k, b)
  {
    SortRanks(k, a);
    SortRanks(k, b);
    PermutedIdsStayDistinct(a, Sort(k, a));
    RankedIsUnique(k, Sort(k, a), Sort(k, b));
  }

  /** The outcome does not depend on the order in which the candidates are listed. */
  lemma StackingIgnoresOrder(a: seq<Candidate>, b: seq<Candidate>)
    requires multiset(a) == multiset(b) && DistinctIds(a)
    ensures ApplyStacking(a) == ApplyStacking(b)
  {
    SameMembersSize(a, b);
    SortIgnoresOrder(ByPriority, a, b);
  }

  lemma SamePolicies(a: seq<Candidate>, b: seq<Candidate>, p: Policy)
    requires multiset(a) == multiset(b)
    ensures Has(a, p) <==> Has(b, p)
  {
    if Has(a, p) {
      var i :| 0 <= i < |a| && a[i].policy == p;
      SameMembers(a, b, a[i]);
    }
    if Has(b, p) {
      var i :| 0 <= i < |b| && b[i].policy == p;
      SameMembers(a, b, b[i]);
    }
  }

  /** BEST_ONLY leaves the single largest discount, else BLOCK the first blocking voucher by
      priority, else every candidate stays, ranked by priority. */
  lemma StackingOutcome(c: seq<Candidate>)
    ensures var r := ApplyStacking(c);
            if Has(c, BestOnly) then
              |r| == 1 && r[0] in c && forall y :: y in c ==>
                                         y.discount <= r[0].discount
                                         && (y.discount == r[0].discount ==> r[0].id <= y.id)
            else if Has(c, Block) then
              && |r| == 1 && r[0] in c && r[0].policy == Block
              && forall y :: y in c && y.policy == Block ==> !Above(ByPriority, y, r[0])
            else
              multiset(r) == multiset(c) && Ranked(ByPriority, r)
  {
    if c != [] {
      var ordered := Sort(ByPriority, c);
      SortRanks(ByPriority, c);
      FindIsFirst(ordered, Block);
      SamePolicies(c, ordered, BestOnly);
      SamePolicies(c, ordered, Block);
      if Has(c, BestOnly) {
        var best := Sort(ByDiscount, ordered);
        SortRanks(ByDiscount, ordered);
        SameMembersSize(best, c);
        SameMembers(best, c, best[0]);
        forall y | y in c ensures !Above(ByDiscount, y, best[0]) { SameMembers(best, c, y); }
      } else if Has(c, Block) {
        var x := Find(ordered, Block).value;
        SameMembers(ordered, c, x);
        forall y | y in c && y.policy == Block ensures !Above(ByPriority, y, x) { SameMembers(ordered, c, y); }
      }
    }
  }
}
