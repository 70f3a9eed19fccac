/**
 Menu-price rollouts: a preview that blocks branches whose policy forbids the price, an explicit
 confirmation, a second person's approval, and an execution that trusts the preview only while
 the policy traces it was based on are unchanged.
 */
module Rollout {
  import opened Common
  import opened Policy
  import opened PolicyRules

  datatype ItemStatus = Pending | Blocked | Succeeded | Failed

  datatype Item = Item(branch: Id, status: ItemStatus)

  datatype Status = Ready | Scheduled | Running | Partial | Complete | Abandoned

  datatype Refusal = NotAllowed | NotFound | BadInput | WrongState

  /** Digests are injective, so a digest is represented by what was digested. */
  type TargetDigest = multiset<Id>
  type Watermark = map<Id, seq<TraceStep>>

  /** Which tree node each authorised branch of the scope has. */
  type Scope = map<Id, Id>

  ghost predicate ScopeOk(db: Db, scope: Scope) {
    && Good(db)
    && (forall m, n :: m in db.nodes && n in db.nodes && m != n && db.nodes[m].branch.Some? ==>
          db.nodes[m].branch != db.nodes[n].branch)
    && (forall b :: b in scope ==> scope[b] in db.nodes && db.nodes[scope[b]].branch == Some(b))
  }

  /** Tables only grow: nodes keep their parent and branch, assignments are appended. */
  ghost predicate Grows(before: Db, after: Db) {
    && (forall n :: n in before.nodes ==>
          n in after.nodes && after.nodes[n].parent == before.nodes[n].parent
          && after.nodes[n].branch == before.nodes[n].branch)
    && before.assignments <= after.assignments
  }

  /** The price the policy permits: the locked value where there is one, inside the range in force. */
  predicate Permits(c: Core, price: int) {
    && (c.locked && c.value != Missing ==> NumberOf(c.value) == price)
    && (c.range.Some? ==> Within(Integer(price), c.range.value))
  }

  /** What the policy tables said of one branch at one moment. */
  datatype Finding = Finding(core: Core, trace: seq<TraceStep>)

  function Find(db: Db, scope: Scope, at: Id -> Time, policy: Id, b: Id): Finding
    requires ScopeOk(db, scope) && b in scope
  {
    Finding(Resolution(db, policy, scope[b], at(b)), TraceOf(db, policy, scope[b], at(b)))
  }

  /** `findings` are what resolving each branch of the scope gives. */
  ghost predicate Findings(db: Db, scope: Scope, at: Id -> Time, policy: Id, findings: map<Id, Finding>) {
    && ScopeOk(db, scope) && findings.Keys == scope.Keys
    && forall b :: b in scope ==> findings[b] == Find(db, scope, at, policy, b)
  }

  function PreviewItem(b: Id, f: Finding, price: int): Item {
    Item(b, if Permits(f.core, price) then Pending else Blocked)
  }

  function Branches(items: seq<Item>): (m: multiset<Id>)
    ensures forall i :: 0 <= i < |items| ==> items[i].branch in m
  {
    if items == [] then multiset{} else
      assert items == items[..|items| - 1] + [items[|items| - 1]];
      Branches(items[..|items| - 1]) + multiset{items[|items| - 1].branch}
  }

  predicate AllSucceeded(items: seq<Item>) {
    forall i :: 0 <= i < |items| ==> items[i].status == Succeeded
  }

  predicate SomeSucceeded(items: seq<Item>) {
    exists i :: 0 <= i < |items| && items[i].status == Succeeded
  }

  predicate SomeStopped(items: seq<Item>) {
    exists i :: 0 <= i < |items| && (items[i].status == Failed || items[i].status == Blocked)
  }

  /** The status execution ends with. */
  function FinalStatus(items: seq<Item>): Status {
    if SomeStopped(items) then (if SomeSucceeded(items) then Partial else Abandoned) else Complete
  }

  /** Execution tries the pending and failed items; `failing` are the branches whose batch threw. */
  function Executed(item: Item, failing: set<Id>): Item {
    if item.status == Pending || item.status == Failed
    then item.(status := if item.branch in failing then Failed else Succeeded) else item
  }

  /** Same branches in the same order. */
  predicate SameTargets(a: seq<Item>, b: seq<Item>) {
    |a| == |b| && forall i :: 0 <= i < |a| ==> a[i].branch == b[i].branch
  }

  lemma {:induction false} SameTargetsSameDigest(a: seq<Item>, b: seq<Item>)
    requires SameTargets(a, b)
    ensures Branches(a) == Branches(b)
  {
    if a != [] { SameTargetsSameDigest(a[..|a| - 1], b[..|b| - 1]); }
  }

  lemma {:induction false} BranchMembers(items: seq<Item>, b: Id)
    ensures b in Branches(items) <==> exists i :: 0 <= i < |items| && items[i].branch == b
  {
    if items != [] {
      var rest := items[..|items| - 1];
      BranchMembers(rest, b);
      assert items == rest + [items[|items| - 1]];
      if exists i :: 0 <= i < |items| && items[i].branch == b {
        var i :| 0 <= i < |items| && items[i].branch == b;
        if i < |rest| { assert rest[i].branch == b; }
      }
      if exists i :: 0 <= i < |rest| && rest[i].branch == b {
        var i :| 0 <= i < |rest| && rest[i].branch == b;
        assert items[i].branch == b;
      }
    }
  }

  /** One rollout with its items. */
  datatype Book = Book(policy: Id, price: int, createdBy: Id, requiresApproval: bool, targetHash: TargetDigest,
                       watermark: Watermark,
                       status: Status, items: seq<Item>, confirmation: Option<TargetDigest>, approvedBy: Option<Id>)

  predicate Distinct(branches: seq<Id>) {
    forall i, j :: 0 <= i < j < |branches| ==> branches[i] != branches[j]
  }

  /** One item per branch found at preview; the target digest is theirs. */
  ghost predicate Targets(items: seq<Item>, hash: TargetDigest, findings: map<Id, Finding>) {
    && items != [] && Branches(items) == hash
    && (forall i, j :: 0 <= i < j < |items| ==> items[i].branch != items[j].branch)
    && (forall i :: 0 <= i < |items| ==> items[i].branch in findings)
  }

  /** The item is blocked exactly if the policy found for its branch forbids the price. */
  predicate Verdict(item: Item, price: int, findings: map<Id, Finding>) {
    item.branch in findings && (item.status != Blocked <==> Permits(findings[item.branch].core, price))
  }

  /** An item is blocked exactly where the policy seen at preview forbids the price. */
  ghost predicate Verdicts(items: seq<Item>, price: int, findings: map<Id, Finding>) {
    forall i :: 0 <= i < |items| ==> Verdict(items[i], price, findings)
  }

  /** The watermark records the traces seen at preview. */
  ghost predicate Marked(watermark: Watermark, hash: TargetDigest, findings: map<Id, Finding>) {
    && (forall b :: b in watermark <==> b in hash)
    && (forall b :: b in watermark ==> b in findings && watermark[b] == findings[b].trace)
  }

  ghost predicate FromPreview(r: Book, findings: map<Id, Finding>) {
    Targets(r.items, r.targetHash, findings) && Verdicts(r.items, r.price, findings)
    && Marked(r.watermark, r.targetHash, findings)
  }

  /** Nothing is applied before confirmation of the previewed targets and, where required, approval
      by someone else; and between calls complete means that every item succeeded. */
  predicate Controlled(r: Book) {
    && (r.confirmation.Some? ==> r.confirmation.value == r.targetHash)
    && (r.approvedBy.Some? ==> r.approvedBy.value != r.createdBy)
    && (SomeSucceeded(r.items) ==> r.confirmation.Some? && (r.requiresApproval ==> r.approvedBy.Some?))
    && r.status != Running && (r.status == Complete <==> AllSucceeded(r.items))
  }

  // --- The operations ---------------------------------------------------------------------------

  function PreviewItems(branches: seq<Id>, found: map<Id, Finding>, price: int): seq<Item>
    requires forall b :: b in branches ==> b in found
  {
    if branches == [] then []
    else
      var rest := branches[..|branches| - 1];
      var b := branches[|branches| - 1];
      assert branches == rest + [b];
      PreviewItems(rest, found, price) + [PreviewItem(b, found[b], price)]
  }

  /** The traces found for the items' branches; the source's list, sorted by its distinct branches. */
  function MarksOf(items: seq<Item>, found: map<Id, Finding>): Watermark {
    map b | b in Branches(items) && b in found :: found[b].trace
  }

  function FirstStatus(items: seq<Item>, scheduled: bool): Status {
    if forall i :: 0 <= i < |items| ==>
         items[i].status == Blocked then Abandoned else if scheduled then Scheduled else Ready
  }

  function Previewed(policy: Id, price: int, branches: seq<Id>, scheduled: bool, requiresApproval: bool, createdBy: Id,
                     found: map<Id, Finding>): Book
    requires forall b :: b in branches ==> b in found
  {
    var items := PreviewItems(branches, found, price);
    Book(policy, price, createdBy, requiresApproval, Branches(items), MarksOf(items, found),
         FirstStatus(items, scheduled), items, None, None)
  }

  lemma {:induction false} PreviewItemsAre(branches: seq<Id>, found: map<Id, Finding>, price: int)
    requires forall b :: b in branches ==> b in found
    ensures var items := PreviewItems(branches, found, price);
            |items| == |branches| && forall i :: 0 <= i < |items| ==>
                                       branches[i] in found
                                       && items[i] == PreviewItem(branches[i], found[branches[i]], price)
  {
    if branches != [] {
      var rest := branches[..|branches| - 1];
      assert branches == rest + [branches[|branches| - 1]];
      PreviewItemsAre(rest, found, price);
    }
  }

  lemma PreviewTargets(branches: seq<Id>, found: map<Id, Finding>, price: int)
    requires branches != [] && Distinct(branches) && forall b :: b in branches ==> b in found
    ensures var items := PreviewItems(branches, found, price);
            Targets(items, Branches(items), found) && Verdicts(items, price, found)
  {
    PreviewItemsAre(branches, found, price);
    var items := PreviewItems(branches, found, price);
    forall i, j | 0 <= i < j < |items| ensures items[i].branch != items[j].branch {
      assert branches[i] != branches[j];
    }
    forall i | 0 <= i < |items| ensures Verdict(items[i], price, found) { assert branches[i] in found; }
  }

  lemma PreviewMarks(branches: seq<Id>, found: map<Id, Finding>, price: int)
    requires forall b :: b in branches ==> b in found
    ensures var items := PreviewItems(branches, found, price); Marked(MarksOf(items, found), Branches(items), found)
  {
    PreviewItemsAre(branches, found, price);
    var items := PreviewItems(branches, found, price);
    forall b | b in Branches(items) ensures b in found { BranchMembers(items, b); }
  }

  lemma PreviewIsOk(policy: Id, price: int, branches: seq<Id>, scheduled: bool, requiresApproval: bool, createdBy: Id,
                    found: map<Id, Finding>)
    requires branches != [] && Distinct(branches) && forall b :: b in branches ==> b in found
    ensures FromPreview(Previewed(policy, price, branches, scheduled, requiresApproval, createdBy, found), found)
    ensures Controlled(Previewed(policy, price, branches, scheduled, requiresApproval, createdBy, found))
  {
    PreviewTargets(branches, found, price);
    PreviewMarks(branches, found, price);
    NothingAppliedYet(branches, found, price);
  }

  /** A previewed item is BLOCKED exactly when its branch is locked at another number or the price breaks
      a bound in force there, and PENDING otherwise; the rollout starts FAILED exactly when all are. */
  lemma PreviewBlocks(policy: Id, price: int, branches: seq<Id>, scheduled: bool, requiresApproval: bool, createdBy: Id,
                      found: map<Id, Finding>, i: nat)
    requires i < |branches| && forall b :: b in branches ==> b in found
    ensures var r := Previewed(policy, price, branches, scheduled, requiresApproval, createdBy, found);
            var c := found[branches[i]].core;
            && |r.items| == |branches| && r.items[i].branch == branches[i]
            && (r.items[i].status == Blocked
                <==> (|| (c.locked && c.value.Integer? && c.value.n != price)
                      || (c.locked && c.value.Other? && c.value.coerced != price)
                      || (c.range.Some? && c.range.value.min.Some? && price < c.range.value.min.value)
                      || (c.range.Some? && c.range.value.max.Some? && c.range.value.max.value < price)))
            && (r.items[i].status != Blocked ==> r.items[i].status == Pending)
            && (r.status == Abandoned <==> forall k :: 0 <= k < |r.items| ==> r.items[k].status == Blocked)
            && (r.status != Abandoned ==> r.status == if scheduled then Scheduled else Ready)
            && r.policy == policy && r.price == price && r.createdBy == createdBy && r.confirmation == None
            && r.requiresApproval == requiresApproval && r.approvedBy == None
  {
    PreviewItemsAre(branches, found, price);
  }

  lemma NothingAppliedYet(branches: seq<Id>, found: map<Id, Finding>, price: int)
    requires branches != [] && forall b :: b in branches ==> b in found
    ensures var items := PreviewItems(branches, found, price); !SomeSucceeded(items) && !AllSucceeded(items)
  {
    PreviewItemsAre(branches, found, price);
    assert PreviewItems(branches, found, price)[0].status != Succeeded;
  }

  /** Which branches' items execution would try. */
  predicate Tried(item: Item) {
    item.status == Pending || item.status == Failed
  }

  function ExecutedItems(items: seq<Item>, failing: set<Id>): seq<Item> {
    seq(|items|, i requires 0 <= i < |items| => Executed(items[i], failing))
  }

  function AfterExecution(r: Book, failing: set<Id>): Book {
    var items := ExecutedItems(r.items, failing);
    r.(items := items, status := FinalStatus(items))
  }

  lemma ExecutedItemsAre(items: seq<Item>, failing: set<Id>)
    ensures |ExecutedItems(items, failing)| == |items|
    ensures forall i :: 0 <= i < |items| ==> ExecutedItems(items, failing)[i] == Executed(items[i], failing)
    ensures Branches(ExecutedItems(items, failing)) == Branches(items)
  {
    SameTargetsSameDigest(items, ExecutedItems(items, failing));
  }

  lemma ExecutionKeepsTargets(items: seq<Item>, hash: TargetDigest, findings: map<Id, Finding>, failing: set<Id>)
    requires Targets(items, hash, findings)
    ensures Targets(ExecutedItems(items, failing), hash, findings)
  {
    ExecutedItemsAre(items, failing);
    SameBranchesSameTargets(items, ExecutedItems(items, failing), hash, findings);
  }

  /** Targets are a matter of the branches alone. */
  lemma SameBranchesSameTargets(items: seq<Item>, after: seq<Item>, hash: TargetDigest, findings: map<Id, Finding>)
    requires Targets(items, hash, findings) && SameTargets(after, items)
    ensures Targets(after, hash, findings)
  {
    SameTargetsSameDigest(after, items);
    forall i, j | 0 <= i < j < |after| ensures after[i].branch != after[j].branch {
      assert items[i].branch != items[j].branch;
    }
    forall i | 0 <= i < |after| ensures after[i].branch in findings { assert items[i].branch in findings; }
  }

  lemma ExecutionKeepsPreview(r: Book, findings: map<Id, Finding>, failing: set<Id>)
    requires FromPreview(r, findings)
    ensures FromPreview(AfterExecution(r, failing), findings)
  {
    ExecutionKeepsTargets(r.items, r.targetHash, findings, failing);
    ExecutionKeepsVerdicts(r.items, r.price, findings, failing);
  }

  lemma ExecutionKeepsVerdicts(items: seq<Item>, price: int, findings: map<Id, Finding>, failing: set<Id>)
    requires Verdicts(items, price, findings)
    ensures Verdicts(ExecutedItems(items, failing), price, findings)
  {
    forall i | 0 <= i < |items| ensures Verdict(ExecutedItems(items, failing)[i], price, findings) {
      assert Verdict(items[i], price, findings);
    }
  }

  lemma ExecutionKeepsControl(r: Book, failing: set<Id>)
    requires Controlled(r) && r.confirmation.Some? && (r.requiresApproval ==> r.approvedBy.Some?)
    ensures Controlled(AfterExecution(r, failing))
  {
    var items := ExecutedItems(r.items, failing);
    forall i | 0 <= i < |items| ensures items[i].status != Pending {}
    if !SomeStopped(items) {
      forall i | 0 <= i < |items| ensures items[i].status == Succeeded {}
    }
  }

  /** Why execution is refused, if it is. */
  function ExecutionError(r: Book, current: Option<Watermark>): Option<Refusal> {
    if r.status != Ready && r.status != Scheduled && r.status != Partial then Some(WrongState)
    else if r.confirmation.None? then Some(WrongState)
    else if r.requiresApproval && r.approvedBy.None? then Some(WrongState)
    else if Branches(r.items) != r.targetHash || Some(r.targetHash) != r.confirmation then Some(NotAllowed)
    else if current.None? then Some(NotAllowed)
    else if current.value != r.watermark then Some(WrongState)
    else None
  }

  /** The watermark names exactly the items' branches, each with the trace that is found for it now. */
  ghost predicate TracesUnchanged(items: seq<Item>, current: map<Id, Finding>, watermark: Watermark) {
    && (forall b :: b in watermark <==> exists i :: 0 <= i < |items| && items[i].branch == b)
    && (forall b :: b in watermark ==> b in current && watermark[b] == current[b].trace)
  }

  lemma MarksAre(items: seq<Item>, current: map<Id, Finding>, watermark: Watermark)
    requires forall i :: 0 <= i < |items| ==> items[i].branch in current
    ensures MarksOf(items, current) == watermark <==> TracesUnchanged(items, current, watermark)
  {
    forall b ensures b in MarksOf(items, current) <==> exists i :: 0 <= i < |items| && items[i].branch == b {
      BranchMembers(items, b);
    }
  }

  /** Execution goes ahead exactly for an open or partly applied rollout that was confirmed for its targets,
      approved where that is required, and whose branches are all still there with unchanged policy traces. */
  lemma ExecutesExactlyWhen(r: Book, current: map<Id, Finding>)
    ensures ExecutionError(r, CurrentWatermark(r, current)).None?
            <==> (&& (r.status == Ready || r.status == Scheduled || r.status == Partial)
                  && r.confirmation == Some(r.targetHash) && (r.requiresApproval ==> r.approvedBy.Some?)
                  && r.targetHash == Branches(r.items)
                  && (forall i :: 0 <= i < |r.items| ==> r.items[i].branch in current)
                  && TracesUnchanged(r.items, current, r.watermark))
  {
    if forall i :: 0 <= i < |r.items| ==> r.items[i].branch in current {
      MarksAre(r.items, current, r.watermark);
      assert CurrentWatermark(r, current) == Some(MarksOf(r.items, current));
    }
  }

  /** What execution makes of an item: succeeded and blocked ones stay, the others fail with their batch or
      succeed. */
  lemma ItemEnds(r: Book, failing: set<Id>, i: nat)
    requires i < |r.items|
    ensures var before, after := r.items[i], AfterExecution(r, failing).items;
            && |after| == |r.items| && after[i].branch == before.branch
            && after[i].status == if before.status == Succeeded || before.status == Blocked then before.status
                                  else if before.branch in failing then Failed else Succeeded
  {
    ExecutedItemsAre(r.items, failing);
  }

  /** The rollout ends COMPLETE when all its items have succeeded, PARTIAL when some have, else FAILED. */
  lemma ExecutionEnds(r: Book, failing: set<Id>)
    ensures var after := AfterExecution(r, failing);
            && (after.status == Complete <==> forall k :: 0 <= k < |after.items| ==> after.items[k].status == Succeeded)
            && (after.status != Complete ==>
                  after.status == if exists k :: 0 <= k < |after.items| && after.items[k].status == Succeeded
                                  then Partial else Abandoned)
  {
    var items := AfterExecution(r, failing).items;
    forall k | 0 <= k < |items| ensures items[k].status != Pending { ItemEnds(r, failing, k); }
    if !SomeStopped(items) {
      forall k | 0 <= k < |items| ensures items[k].status == Succeeded {}
    }
  }

  ghost function ItemsOf(items: seq<Item>, b: Id): set<int> {
    set i | 0 <= i < |items| && items[i].branch == b
  }

  lemma LastItem(items: seq<Item>, b: Id)
    requires items != []
    ensures var k := |items| - 1;
            ItemsOf(items, b) == ItemsOf(items[..k], b) + if items[k].branch == b then {k} else {}
  {
  }

  /** How often a branch is digested is how many items it has. */
  lemma {:induction false} BranchesCount(items: seq<Item>, b: Id)
    ensures Branches(items)[b] == |ItemsOf(items, b)|
  {
    if items != [] {
      var k := |items| - 1;
      BranchesCount(items[..k], b);
      LastItem(items, b);
      assert k !in ItemsOf(items[..k], b);
      assert Branches(items)[b] == Branches(items[..k])[b] + if items[k].branch == b then 1 else 0;
    }
  }

  // --- Any sequence of calls ----------------------------------------------------------------------

  predicate Open(r: Book) {
    r.status == Ready || r.status == Scheduled
  }

  function Confirmed(r: Book, hash: TargetDigest): Book {
    if Open(r) && r.confirmation.None? && hash == r.targetHash then r.(confirmation := Some(hash)) else r
  }

  function Approved(r: Book, actor: Id): Book {
    if Open(r) && r.requiresApproval && actor != r.createdBy && r.approvedBy.None? then r.(approvedBy := Some(actor))
    else r
  }

  datatype Call = Confirm(hash: TargetDigest) | Approve(actor: Id) | Execute(current: map<Id, Finding>,
                          failing: set<Id>)

  function After(r: Book, call: Call): Book {
    match call
    case Confirm(hash) => Confirmed(r, hash)
    case Approve(actor) => Approved(r, actor)
    case Execute(current, failing) =>
      if r.status != Complete && ExecutionError(r, CurrentWatermark(r, current)).None? then AfterExecution(r, failing)
      else r
  }

  /** What no later call undoes: targets, terms and creator stay, an item that succeeded stays
      succeeded, and a blocked item stays blocked. */
  predicate Follows(r: Book, later: Book) {
    && later.targetHash == r.targetHash && later.createdBy == r.createdBy
    && later.requiresApproval == r.requiresApproval
    && later.price == r.price && later.watermark == r.watermark && |later.items| == |r.items|
    && (forall k :: 0 <= k < |r.items| ==>
          && later.items[k].branch == r.items[k].branch
          && (r.items[k].status == Succeeded ==> later.items[k].status == Succeeded)
          && (later.items[k].status == Blocked <==> r.items[k].status == Blocked))
  }

  lemma ExecutionFollows(r: Book, failing: set<Id>)
    ensures Follows(r, AfterExecution(r, failing)) && Follows(r, r)
  {
    ItemsFollow(r.items, failing);
  }

  lemma ItemsFollow(items: seq<Item>, failing: set<Id>)
    ensures var later := ExecutedItems(items, failing);
            |later| == |items|
            && forall k :: 0 <= k < |items| ==>
                 && later[k].branch == items[k].branch
                 && (items[k].status == Succeeded ==> later[k].status == Succeeded)
                 && (later[k].status == Blocked <==> items[k].status == Blocked)
  {
  }

  lemma CallFollows(r: Book, call: Call)
    ensures Follows(r, After(r, call))
  {
    if call.Execute? { ExecutionFollows(r, call.failing); }
  }

  lemma CallKeepsRollout(r: Book, call: Call, findings: map<Id, Finding>)
    requires FromPreview(r, findings) && Controlled(r)
    ensures FromPreview(After(r, call), findings) && Controlled(After(r, call))
  {
    if call.Execute? && r.status != Complete && ExecutionError(r, CurrentWatermark(r, call.current)).None? {
      ExecutionKeepsPreview(r, findings, call.failing);
      ExecutionKeepsControl(r, call.failing);
    }
  }

  ghost predicate IsHistory(books: seq<Book>, calls: seq<Call>) {
    |books| == |calls| + 1 && forall k {:trigger calls[k]} :: 0 <= k < |calls| ==>
                                books[k + 1] == After(books[k], calls[k])
  }

  lemma {:induction false} HistoryFollows(books: seq<Book>, calls: seq<Call>, i: nat, j: nat)
    requires IsHistory(books, calls) && i <= j <= |calls|
    ensures Follows(books[i], books[j])
    decreases j
  {
    if i < j {
      HistoryFollows(books, calls, i, j - 1);
      CallFollows(books[j - 1], calls[j - 1]);
    }
  }

  lemma {:induction false} HistoryKeepsRollout(books: seq<Book>, calls: seq<Call>, findings: map<Id, Finding>, j: nat)
    requires IsHistory(books, calls) && FromPreview(books[0], findings) && Controlled(books[0]) && j <= |calls|
    ensures FromPreview(books[j], findings) && Controlled(books[j])
  {
    if j > 0 {
      HistoryKeepsRollout(books, calls, findings, j - 1);
      assert books[j] == After(books[j - 1], calls[j - 1]);
      CallKeepsRollout(books[j - 1], calls[j - 1], findings);
    }
  }

  /** Rollout safety, for calls made one after another: an item that has SUCCEEDED implies a
      confirmation with the preview's hash and, where required, an approval by someone other than
      the creator; what has succeeded stays so, what was blocked at preview stays blocked and is
      never applied; and the rollout is COMPLETE exactly when every item has succeeded. */
  lemma RolloutSafety(books: seq<Book>, calls: seq<Call>, findings: map<Id, Finding>, i: nat, j: nat, k: nat)
    requires IsHistory(books, calls) && FromPreview(books[0], findings) && Controlled(books[0])
    requires i <= j <= |calls| && k < |books[j].items|
    ensures var r := books[j];
            && k < |books[i].items|
            && (r.items[k].status == Succeeded ==>
                  r.confirmation == Some(books[0].targetHash)
                  && (books[0].requiresApproval ==> r.approvedBy.Some? && r.approvedBy.value != books[0].createdBy))
            && (books[i].items[k].status == Succeeded ==> r.items[k].status == Succeeded)
            && (books[i].items[k].status == Blocked <==> r.items[k].status == Blocked)
            && (r.status == Complete <==> forall m :: 0 <= m < |r.items| ==> r.items[m].status == Succeeded)
  {
    HistoryKeepsRollout(books, calls, findings, j);
    HistoryFollows(books, calls, 0, j);
    HistoryFollows(books, calls, i, j);
    assert books[j].items[k].status == Succeeded ==> SomeSucceeded(books[j].items);
  }

  // --- Executed prices respect the policy in force ----------------------------------------------

  /** priceRolloutPolicyWatermark: none when an item's branch has left the authorised scope. */
  function CurrentWatermark(r: Book, current: map<Id, Finding>): Option<Watermark> {
    if forall i :: 0 <= i < |r.items| ==> r.items[i].branch in current
    then Some(MarksOf(r.items, current)) else None
  }

  /** One node per branch: the node found for a branch at execution is the one found at preview. */
  lemma SameNode(before: Db, after: Db, scope: Scope, scope': Scope, b: Id)
    requires ScopeOk(before, scope) && ScopeOk(after, scope') && Grows(before, after) && b in scope && b in scope'
    ensures scope[b] == scope'[b]
  {
  }

  lemma PermitsMeans(c: Core, price: int)
    requires Permits(c, price)
    ensures c.locked && c.value.Integer? ==> price == c.value.n
    ensures c.locked && c.value.Other? ==> price == c.value.coerced
    ensures c.range.Some? && c.range.value.min.Some? ==> c.range.value.min.value <= price
    ensures c.range.Some? && c.range.value.max.Some? ==> price <= c.range.value.max.value
  {
  }

  /** An equal watermark carries what the preview resolved over to the moment of execution. */
  lemma SameResolution(r: Book, before: Db, scope: Scope, at: Id -> Time, findings: map<Id, Finding>, after: Db,
                       scope': Scope, at': Id -> Time, current: map<Id, Finding>, i: nat)
    requires FromPreview(r, findings) && Findings(before, scope, at, r.policy, findings)
    requires Findings(after, scope', at', r.policy, current) && Grows(before, after)
    requires ExecutionError(r, CurrentWatermark(r, current)).None? && i < |r.items|
    ensures r.items[i].branch in current && r.items[i].branch in findings
    ensures current[r.items[i].branch].core == findings[r.items[i].branch].core
  {
    var b := r.items[i].branch;
    assert b in current;
    BranchMembers(r.items, b);
    assert r.watermark[b] == current[b].trace;
    SameNode(before, after, scope, scope', b);
    EqualTracesResolveEqually(before, after, r.policy, scope[b], at(b), at'(b));
  }

  /** Every item that execution applies has a price that equals the locked policy value, where there
      is one, and lies in the resolved range, both as they stand at the watermark check. */
  lemma AppliedPricesArePermitted(r: Book, before: Db, scope: Scope, at: Id -> Time, findings: map<Id, Finding>,
                                  after: Db, scope': Scope, at': Id -> Time, current: map<Id, Finding>, i: nat)
    requires FromPreview(r, findings) && Findings(before, scope, at, r.policy, findings)
    requires Findings(after, scope', at', r.policy, current) && Grows(before, after)
    requires ExecutionError(r, CurrentWatermark(r, current)).None?
    requires i < |r.items| && (r.items[i].status == Pending || r.items[i].status == Failed)
    ensures r.items[i].branch in current
    ensures var c := current[r.items[i].branch].core;
            && (c.locked && c.value.Integer? ==> r.price == c.value.n)
            && (c.locked && c.value.Other? ==> r.price == c.value.coerced)
            && (c.range.Some? && c.range.value.min.Some? ==> c.range.value.min.value <= r.price)
            && (c.range.Some? && c.range.value.max.Some? ==> r.price <= c.range.value.max.value)
  {
    SameResolution(r, before, scope, at, findings, after, scope', at', current, i);
    assert Verdict(r.items[i], r.price, findings);
    PermitsMeans(current[r.items[i].branch].core, r.price);
  }

  /** The branch prices after execution: the new price wherever an item was applied. */
  function PricesAfter(prices: map<Id, int>, items: seq<Item>, price: int, failing: set<Id>): map<Id, int> {
    if items == [] then prices
    else
      var item := items[|items| - 1];
      var before := PricesAfter(prices, items[..|items| - 1], price, failing);
      if Tried(item) && item.branch !in failing then before[item.branch := price] else before
  }

  /** A branch's price changes only where its item succeeds in this execution; blocked items and
      items that had already succeeded are not applied. */
  lemma {:induction false} OnlyAppliedPricesChange(prices: map<Id, int>, items: seq<Item>, price: int, failing: set<Id>,
                                                   b: Id)
    ensures var after := PricesAfter(prices, items, price, failing);
            var applied := b !in failing
              && exists i :: 0 <= i < |items| && items[i].branch == b
                             && (items[i].status == Pending || items[i].status == Failed);
            (b in after <==> b in prices || applied)
            && (b in after ==> after[b] == if applied then price else prices[b])
  {
    if items != [] {
      var rest := items[..|items| - 1];
      var last := items[|items| - 1];
      OnlyAppliedPricesChange(prices, rest, price, failing, b);
      if exists i :: 0 <= i < |rest| && rest[i].branch == b && (rest[i].status == Pending || rest[i].status == Failed) {
        var i :| 0 <= i < |rest| && rest[i].branch == b && (rest[i].status == Pending || rest[i].status == Failed);
        assert items[i] == rest[i];
      }
      if last.branch == b && Tried(last) && last.branch !in failing { assert items[|items| - 1] == last; }
    }
  }

  method BuildItems(branches: seq<Id>, found: map<Id, Finding>, price: int) returns (list: seq<Item>)
    requires forall b :: b in branches ==> b in found
    ensures list == PreviewItems(branches, found, price)
  {
    list := [];
    var i := 0;
    while i < |branches|
      invariant i <= |branches| && list == PreviewItems(branches[..i], found, price)
    {
      list := list + [PreviewItem(branches[i], found[branches[i]], price)];
      assert branches[..i + 1][..i] == branches[..i];
      i := i + 1;
    }
    assert branches[..|branches|] == branches;
  }

  // --- The service ------------------------------------------------------------------------------

  class PriceRollout {
    const policy: Id
    const price: int
    const createdBy: Id
    const requiresApproval: bool
    const targetHash: TargetDigest
    const watermark: Watermark
    var status: Status
    var items: seq<Item>
    var confirmation: Option<TargetDigest>
    var approvedBy: Option<Id>
    /** menu_item_branch_settings: the price in force at each branch that has its own. */
    var prices: map<Id, int>
    ghost const findings: map<Id, Finding>

    ghost function View(): Book
      reads this
    {
      Book(policy, price, createdBy, requiresApproval, targetHash, watermark, status, items, confirmation, approvedBy)
    }

    ghost predicate Valid()
      reads this
    {
      FromPreview(View(), findings) && Controlled(View())
    }

    /** createPriceRollout, from what resolving the policy at each branch of the scope found. */
    constructor Preview(policy: Id, price: int, branches: seq<Id>, scheduled: bool, requiresApproval: bool,
                        createdBy: Id,
                        found: map<Id, Finding>, prices: map<Id, int>)
      requires branches != [] && Distinct(branches) && forall b :: b in branches ==> b in found
      ensures Valid() && findings == found && this.prices == prices
      ensures View() == Previewed(policy, price, branches, scheduled, requiresApproval, createdBy, found)
    {
      PreviewIsOk(policy, price, branches, scheduled, requiresApproval, createdBy, found);
      var list := BuildItems(branches, found, price);
      this.policy, this.price, this.createdBy, this.requiresApproval, this.prices := policy, price, createdBy,
        requiresApproval, prices;
      targetHash, watermark := Branches(list), MarksOf(list, found);
      items, confirmation, approvedBy := list, None, None;
      status := FirstStatus(list, scheduled);
      findings := found;
    }

    /** confirmRollout: only the hash of the previewed targets confirms. */
    method Confirm(hash: TargetDigest) returns (r: Result<bool, Refusal>)
      requires Valid()
      modifies this`confirmation
      ensures Valid()
      ensures match r
              case Err(WrongState) => status != Ready && status != Scheduled && confirmation == old(confirmation)
              case Err(_) => confirmation.None? && hash != targetHash && confirmation == old(confirmation)
              case Ok(duplicate) =>
                && confirmation == Some(targetHash) && duplicate == old(confirmation.Some?)
                && (!duplicate ==> hash == targetHash)
      ensures View() == After(old(View()), Call.Confirm(hash))
    {
      if status != Ready && status != Scheduled { return Err(WrongState); }
      if confirmation.Some? { return Ok(true); }
      if hash != targetHash { return Err(BadInput); }
      confirmation := Some(hash);
      r := Ok(false);
    }

    /** approveRollout: two people. */
    method Approve(actor: Id) returns (r: Result<bool, Refusal>)
      requires Valid()
      modifies this`approvedBy
      ensures Valid()
      ensures match r
              case Err(WrongState) => (status != Ready && status != Scheduled) || !requiresApproval
              case Err(_) => actor == createdBy
              case Ok(duplicate) => duplicate == old(approvedBy.Some?) && actor != createdBy && requiresApproval
                                    && approvedBy == if duplicate then old(approvedBy) else Some(actor)
      ensures View() == After(old(View()), Call.Approve(actor))
    {
      if status != Ready && status != Scheduled { return Err(WrongState); }
      if !requiresApproval { return Err(WrongState); }
      if actor == createdBy { return Err(NotAllowed); }
      if approvedBy.Some? { return Ok(true); }
      approvedBy := Some(actor);
      r := Ok(false);
    }

    /** executeRollout: `current` is what resolving the policy at each authorised branch finds now,
        `failing` the branches whose batch throws. */
    method Execute(current: map<Id, Finding>, failing: set<Id>) returns (r: Result<bool, Refusal>)
      requires Valid()
      modifies this`status, this`items, this`prices
      ensures Valid()
      ensures old(status) == Complete ==> r == Ok(true)
      ensures old(status) != Complete ==>
                var failure := ExecutionError(old(View()), CurrentWatermark(old(View()), current));
                r == if failure.Some? then Err(failure.value) else Ok(false)
      ensures View() == After(old(View()), Call.Execute(current, failing))
      ensures prices == if r == Ok(false) then PricesAfter(old(prices), old(items), price, failing) else old(prices)
    {
      if status == Complete { return Ok(true); }
      var book := Book(policy, price, createdBy, requiresApproval, targetHash, watermark, status, items, confirmation,
                       approvedBy);
      var failure := ExecutionError(book, CurrentWatermark(book, current));
      if failure.Some? { return Err(failure.value); }
      CallKeepsRollout(View(), Call.Execute(current, failing), findings);
      Apply(failing);
      r := Ok(false);
    }

    /** The claim of the rollout, its items, and the status that follows from them. */
    method Apply(failing: set<Id>)
      modifies this`status, this`items, this`prices
      ensures View() == AfterExecution(old(View()), failing)
      ensures prices == PricesAfter(old(prices), old(items), price, failing)
    {
      status := Running;
      ApplyItems(failing);
      status := FinalStatus(items);
    }

    /** The loop over the items that are pending or failed: each one's price and status change
        together, or its failure is recorded. */
    method ApplyItems(failing: set<Id>)
      modifies this`items, this`prices
      ensures items == ExecutedItems(old(items), failing)
      ensures prices == PricesAfter(old(prices), old(items), price, failing)
    {
      ghost var start := items;
      var i := 0;
      while i < |items|
        invariant i <= |items| == |start|
        invariant forall k :: 0 <= k < |items| ==> items[k] == if k < i then Executed(start[k], failing) else start[k]
        invariant prices == PricesAfter(old(prices), start[..i], price, failing)
      {
        assert start[..i + 1][..i] == start[..i];
        var item := items[i];
        if Tried(item) {
          if item.branch in failing {
            items := items[i := item.(status := Failed)];
          } else {
            prices := prices[item.branch := price];
            items := items[i := item.(status := Succeeded)];
          }
        }
        i := i + 1;
      }
      assert start[..|start|] == start;
      assert items == ExecutedItems(start, failing);
    }
  }

  /** The rollouts of a tenant by their idempotency keys. */
  class Rollouts {
    var byKey: map<Id, PriceRollout>

    constructor ()
      ensures byKey == map[]
    {
      byKey := map[];
    }

    /** createPriceRollout: a used key gives its rollout back; `item` is the currency of the menu item if
        it is on the menu. */
    method CreatePriceRollout(key: Id, policy: Id, price: int, currency: Id, item: Option<Id>, branches: seq<Id>,
                              scheduled: bool, requiresApproval: bool, createdBy: Id, found: map<Id, Finding>,
                              prices: map<Id, int>)
      returns (r: Result<PriceRollout, Refusal>)
      requires Distinct(branches) && forall b :: b in branches ==> b in found
      modifies this
      ensures r.Ok? <==> 0 <= price <= MAX_SAFE && (key in old(byKey) || (item == Some(currency) && branches != []))
      ensures r.Ok? ==> byKey == old(byKey)[key := r.value]
      ensures r.Ok? && key in old(byKey) ==> r.value == old(byKey)[key]
      ensures r.Ok? && key !in old(byKey) ==>
                && fresh(r.value) && r.value.Valid() && r.value.findings == found && r.value.prices == prices
                && r.value.View() == Previewed(policy, price, branches, scheduled, requiresApproval, createdBy, found)
      ensures r.Err? ==> byKey == old(byKey) && r.error == if 0 <= price <= MAX_SAFE && item.None? then NotFound
                                                           else BadInput
    {
      if price < 0 || price > MAX_SAFE { return Err(BadInput); }
      if key in byKey { return Ok(byKey[key]); }
      if item.None? { return Err(NotFound); }
      if item.value != currency || branches == [] { return Err(BadInput); }
      var rollout := new PriceRollout.Preview(policy, price, branches, scheduled, requiresApproval, createdBy, found,
                                              prices);
      byKey := byKey[key := rollout];
      r := Ok(rollout);
    }
  }
}
