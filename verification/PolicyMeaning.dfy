/**
 What resolving and assigning policies comes to, read off the outcomes that are published along the
 path: which assignment a resolved value, lock and range come from, when an assignment on the path is
 applied, and what an assignment must bring to be accepted below a given parent.
 */
module PolicyMeaning {
  import opened Common
  import opened Hierarchy
  import opened Policy
  import opened PolicyRules

  // --- Where a resolution comes from ----------------------------------------------------------------

  /** The assignment at `i` is the last one applied among the first `n`. */
  predicate LastApplied(trace: seq<TraceStep>, n: nat, i: nat)
    requires n <= |trace|
  {
    && i < n && trace[i].outcome == Applied
    && forall j :: i < j < n ==> trace[j].outcome != Applied
  }

  /** It is the last one applied that opens a range. */
  predicate LastRange(trace: seq<TraceStep>, n: nat, i: nat)
    requires n <= |trace|
  {
    && i < n && trace[i].outcome == Applied && trace[i].state == AllowedWithinRange
    && forall j :: i < j < n && trace[j].outcome == Applied ==> trace[j].state != AllowedWithinRange
  }

  /** Some applied assignment among the first `n` locks. */
  predicate LockedBy(trace: seq<TraceStep>, n: nat)
    requires n <= |trace|
  {
    exists i :: 0 <= i < n && trace[i].outcome == Applied
                && (trace[i].state == Locked || trace[i].state == NotApplicable)
  }

  predicate NoneApplied(trace: seq<TraceStep>, n: nat)
    requires n <= |trace|
  {
    forall i :: 0 <= i < n ==> trace[i].outcome != Applied
  }

  predicate NoRange(trace: seq<TraceStep>, n: nat)
    requires n <= |trace|
  {
    forall i :: 0 <= i < n && trace[i].outcome == Applied ==> trace[i].state != AllowedWithinRange
  }

  /** The value and the source are those of the last applied assignment. */
  ghost predicate SourceComesFrom(c: Core, rows: seq<QueryRow>, trace: seq<TraceStep>, n: nat)
    requires n <= |rows| == |trace|
  {
    match c.source
    case None => NoneApplied(trace, n) && c.value == Missing && !c.approval
    case Some(a) =>
      exists i: nat :: LastApplied(trace, n, i) && a == rows[i].assignment
                       && c.value == rows[i].assignment.value && (c.approval <==> trace[i].state == ApprovalRequired)
  }

  /** The range is that of the last applied assignment that opens one. */
  ghost predicate RangeComesFrom(c: Core, rows: seq<QueryRow>, trace: seq<TraceStep>, n: nat)
    requires n <= |rows| == |trace|
  {
    match c.range
    case None => NoRange(trace, n)
    case Some(r) => exists i: nat :: LastRange(trace, n, i) && r == rows[i].assignment.range
  }

  /** The core is what the outcomes of the first `n` rows say; it is locked if one of them locks. */
  ghost predicate ComesFrom(c: Core, rows: seq<QueryRow>, trace: seq<TraceStep>, n: nat)
    requires n <= |rows| == |trace|
  {
    SourceComesFrom(c, rows, trace, n) && RangeComesFrom(c, rows, trace, n) && (c.locked <==> LockedBy(trace, n))
  }

  /** The trace lists the rows. */
  predicate Lists(rows: seq<QueryRow>, trace: seq<TraceStep>) {
    |trace| == |rows| && forall i :: 0 <= i < |rows| ==>
                           && trace[i].scope == rows[i].assignment.scope && trace[i].depth == rows[i].depth
                           && trace[i].assignment == rows[i].assignment.id && trace[i].state == rows[i].assignment.state
                           && trace[i].value == rows[i].assignment.value && trace[i].from == rows[i].assignment.from
  }

  lemma {:induction false} TraceLists(db: Db, rows: seq<QueryRow>, t: Time)
    ensures Lists(rows, Trace(db, rows, t))
  {
    if rows != [] { TraceLists(db, rows[..|rows| - 1], t); }
  }

  lemma {:induction false} TracePrefix(db: Db, rows: seq<QueryRow>, n: nat, t: Time)
    requires n <= |rows|
    ensures |Trace(db, rows, t)| == |rows| && Trace(db, rows[..n], t) == Trace(db, rows, t)[..n]
  {
    TraceLists(db, rows, t);
    if n < |rows| {
      var rest := rows[..|rows| - 1];
      TracePrefix(db, rest, n, t);
      TraceLists(db, rest, t);
      assert rest[..n] == rows[..n];
      assert Trace(db, rows, t)[..|rest|] == Trace(db, rest, t);
      assert Trace(db, rows, t)[..n] == Trace(db, rest, t)[..n];
    } else {
      assert rows[..n] == rows;
    }
  }

  /** The step of the fold at row `n`. */
  ghost predicate OneStep(c: Core, c': Core, rows: seq<QueryRow>, trace: seq<TraceStep>, n: nat) {
    && n < |rows| == |trace| && Lists(rows, trace)
    && c' == (if trace[n].outcome == Applied then ApplyTo(c, rows[n].assignment) else c)
    && (trace[n].outcome == Applied ==> !c.locked)
  }

  lemma SourceOneMore(c: Core, c': Core, rows: seq<QueryRow>, trace: seq<TraceStep>, n: nat)
    requires OneStep(c, c', rows, trace, n) && SourceComesFrom(c, rows, trace, n)
    ensures SourceComesFrom(c', rows, trace, n + 1)
  {
    if trace[n].outcome == Applied {
      assert LastApplied(trace, n + 1, n);
    } else if c.source.Some? {
      var i: nat :| LastApplied(trace, n, i) && c.source.value == rows[i].assignment
        && c.value == rows[i].assignment.value && (c.approval <==> trace[i].state == ApprovalRequired);
      assert LastApplied(trace, n + 1, i);
    }
  }

  lemma RangeOneMore(c: Core, c': Core, rows: seq<QueryRow>, trace: seq<TraceStep>, n: nat)
    requires OneStep(c, c', rows, trace, n) && RangeComesFrom(c, rows, trace, n)
    ensures RangeComesFrom(c', rows, trace, n + 1)
  {
    if trace[n].outcome == Applied && rows[n].assignment.state == AllowedWithinRange {
      assert LastRange(trace, n + 1, n);
    } else if c.range.Some? {
      var i: nat :| LastRange(trace, n, i) && c.range.value == rows[i].assignment.range;
      assert LastRange(trace, n + 1, i);
    }
  }

  lemma LockOneMore(c: Core, c': Core, rows: seq<QueryRow>, trace: seq<TraceStep>, n: nat)
    requires OneStep(c, c', rows, trace, n) && (c.locked <==> LockedBy(trace, n))
    ensures c'.locked <==> LockedBy(trace, n + 1)
  {
    if LockedBy(trace, n) {
      var i :| 0 <= i < n && trace[i].outcome == Applied
        && (trace[i].state == Locked || trace[i].state == NotApplicable);
      assert LockedBy(trace, n + 1);
    }
    if trace[n].outcome == Applied { assert trace[n].state == rows[n].assignment.state; }
  }

  lemma OutcomeOfRow(db: Db, rows: seq<QueryRow>, n: nat, t: Time)
    requires n < |rows|
    ensures |Trace(db, rows, t)| == |rows|
    ensures var a := rows[n].assignment;
            Trace(db, rows, t)[n].outcome
            == OutcomeOf(Fold(db, Assignments(rows[..n]), t), a, Exempt(db, a.policy, a.scope, t))
  {
    OneMoreRow(db, rows, n, t);
    TracePrefix(db, rows, n, t);
    TracePrefix(db, rows, n + 1, t);
    assert Trace(db, rows, t)[n] == Trace(db, rows[..n + 1], t)[n];
  }

  lemma RowIsOneStep(db: Db, rows: seq<QueryRow>, n: nat, t: Time)
    requires n < |rows|
    ensures OneStep(Fold(db, Assignments(rows[..n]), t), Fold(db, Assignments(rows[..n + 1]), t), rows,
                    Trace(db, rows, t), n)
  {
    TraceLists(db, rows, t);
    OutcomeOfRow(db, rows, n, t);
    OneMoreRow(db, rows, n, t);
  }

  lemma StepComesFrom(c: Core, c': Core, rows: seq<QueryRow>, trace: seq<TraceStep>, n: nat)
    requires OneStep(c, c', rows, trace, n) && ComesFrom(c, rows, trace, n)
    ensures ComesFrom(c', rows, trace, n + 1)
  {
    SourceOneMore(c, c', rows, trace, n);
    RangeOneMore(c, c', rows, trace, n);
    LockOneMore(c, c', rows, trace, n);
  }

  lemma {:induction false} PrefixComesFrom(db: Db, rows: seq<QueryRow>, n: nat, t: Time)
    requires n <= |rows|
    ensures |Trace(db, rows, t)| == |rows|
    ensures ComesFrom(Fold(db, Assignments(rows[..n]), t), rows, Trace(db, rows, t), n)
  {
    TraceLists(db, rows, t);
    if n > 0 {
      PrefixComesFrom(db, rows, n - 1, t);
      RowIsOneStep(db, rows, n - 1, t);
      StepComesFrom(Fold(db, Assignments(rows[..n - 1]), t), Fold(db, Assignments(rows[..n]), t), rows,
                    Trace(db, rows, t), n - 1);
    }
  }

  lemma ResolutionIsFold(db: Db, policy: Id, target: Id, t: Time)
    requires Good(db) && target in db.nodes
    ensures Resolution(db, policy, target, t) == Fold(db, Assignments(Walk(db, policy, target, t)), t)
    ensures TraceOf(db, policy, target, t) == Trace(db, Walk(db, policy, target, t), t)
  {
    var path := Path(db.nodes, target);
    PathListsParents(db.nodes, target, 0);
    PathRowsAlong(db, policy, path, |path| - 1, t);
  }

  /** What is resolved comes from the rows of the query by their published outcomes alone. */
  lemma ResolutionComesFrom(db: Db, policy: Id, target: Id, t: Time)
    requires Good(db) && target in db.nodes
    ensures var rows := Walk(db, policy, target, t); var trace := TraceOf(db, policy, target, t);
            Lists(rows, trace) && ComesFrom(Resolution(db, policy, target, t), rows, trace, |rows|)
  {
    var rows := Walk(db, policy, target, t);
    ResolutionIsFold(db, policy, target, t);
    TraceLists(db, rows, t);
    PrefixComesFrom(db, rows, |rows|, t);
    assert rows[..|rows|] == rows;
  }

  /** Which rows the query returns, column by column: for an active policy, at each node on or above the
      target, the highest version that has started and has not ended. */
  lemma QueriedExactlyWhen(db: Db, policy: Id, target: Id, t: Time, q: QueryRow)
    requires Good(db) && target in db.nodes
    ensures Selected(db, policy, target, t, q)
            <==> (&& policy in db.active && q.assignment in db.assignments && q.assignment.policy == policy
                  && KthParent(db.nodes, target, q.depth) == Some(q.assignment.scope)
                  && !(t < q.assignment.from) && !(q.assignment.to.Some? && q.assignment.to.value <= t)
                  && forall b :: b in db.assignments && b.policy == policy && b.scope == q.assignment.scope
                                 && q.assignment.version < b.version
                                 ==> t < b.from || (b.to.Some? && b.to.value <= t))
  {
    assert Row(q.assignment.scope, target, q.depth) in db.closure
           <==> KthParent(db.nodes, target, q.depth) == Some(q.assignment.scope);
  }

  // --- When an assignment is applied ------------------------------------------------------------------

  /** A value breaks the bounds that a range has; anything but an integer breaks any bound. */
  predicate Breaks(v: Value, r: Range) {
    || (r.min.Some? && (!v.Integer? || v.n < r.min.value))
    || (r.max.Some? && (!v.Integer? || v.n > r.max.value))
  }

  /** The last assignment applied before `n` asks for approval. */
  ghost predicate AwaitsApproval(trace: seq<TraceStep>, n: nat)
    requires n <= |trace|
  {
    exists i: nat :: LastApplied(trace, n, i) && trace[i].state == ApprovalRequired
  }

  /** The value at `n` breaks the range opened last before it. */
  ghost predicate OutOfBounds(rows: seq<QueryRow>, trace: seq<TraceStep>, n: nat)
    requires n < |rows| == |trace|
  {
    exists i: nat :: LastRange(trace, n, i) && Breaks(rows[n].assignment.value, rows[i].assignment.range)
  }

  /** The approved exceptions that hold at an instant, bound to one policy and node. */
  predicate Excepted(db: Db, a: Assignment, t: Time) {
    exists e :: e in db.exemptions
                && db.exemptions[e].policy == a.policy && db.exemptions[e].scope == a.scope && db.exemptions[e].approved
                && (db.exemptions[e].from.Some? ==> db.exemptions[e].from.value <= t)
                && (db.exemptions[e].until.Some? ==> t < db.exemptions[e].until.value)
  }

  /** The outcome of a row is decided by the outcomes above it: INHERIT rows are passed over; nothing
      passes a lock, nor a pending approval without an exception at its own node, nor the range opened
      last; every other row is applied. */
  ghost predicate Decided(db: Db, rows: seq<QueryRow>, trace: seq<TraceStep>, n: nat, t: Time)
    requires n < |rows| == |trace|
  {
    var a := rows[n].assignment;
    match trace[n].outcome
    case Inherited => a.state == Inherit
    case BlockedLock => a.state != Inherit && LockedBy(trace, n)
    case NeedsApproval => a.state != Inherit && !LockedBy(trace, n) && AwaitsApproval(trace, n) && !Excepted(db, a, t)
    case BlockedRange =>
      && a.state != Inherit && !LockedBy(trace, n) && (AwaitsApproval(trace, n) ==> Excepted(db, a, t))
      && OutOfBounds(rows, trace, n)
    case Applied =>
      && a.state != Inherit && !LockedBy(trace, n) && (AwaitsApproval(trace, n) ==> Excepted(db, a, t))
      && !OutOfBounds(rows, trace, n)
  }

  lemma LastIsUnique(trace: seq<TraceStep>, n: nat, i: nat, j: nat)
    requires n <= |trace|
    ensures LastApplied(trace, n, i) && LastApplied(trace, n, j) ==> i == j
    ensures LastRange(trace, n, i) && LastRange(trace, n, j) ==> i == j
  {
  }

  lemma PendingMeans(c: Core, rows: seq<QueryRow>, trace: seq<TraceStep>, n: nat)
    requires n <= |rows| == |trace| && ComesFrom(c, rows, trace, n)
    ensures c.approval <==> AwaitsApproval(trace, n)
  {
    if c.source.Some? {
      var i: nat :| LastApplied(trace, n, i) && c.source.value == rows[i].assignment
        && c.value == rows[i].assignment.value && (c.approval <==> trace[i].state == ApprovalRequired);
      forall j: nat ensures LastApplied(trace, n, j) ==> i == j { LastIsUnique(trace, n, i, j); }
    }
  }

  lemma BoundsMean(c: Core, rows: seq<QueryRow>, trace: seq<TraceStep>, n: nat)
    requires n < |rows| == |trace| && ComesFrom(c, rows, trace, n)
    ensures c.range.Some? && !Within(rows[n].assignment.value, c.range.value) <==> OutOfBounds(rows, trace, n)
  {
    if c.range.Some? {
      var i: nat :| LastRange(trace, n, i) && c.range.value == rows[i].assignment.range;
      forall j: nat ensures LastRange(trace, n, j) ==> i == j { LastIsUnique(trace, n, i, j); }
    }
  }

  lemma ExemptMeans(db: Db, a: Assignment, t: Time)
    ensures Exempt(db, a.policy, a.scope, t) <==> Excepted(db, a, t)
  {
  }

  lemma DecidedByCore(db: Db, c: Core, rows: seq<QueryRow>, trace: seq<TraceStep>, n: nat, t: Time)
    requires n < |rows| == |trace| && ComesFrom(c, rows, trace, n)
    requires var a := rows[n].assignment; trace[n].outcome == OutcomeOf(c, a, Excepted(db, a, t))
    ensures Decided(db, rows, trace, n, t)
  {
    PendingMeans(c, rows, trace, n);
    BoundsMean(c, rows, trace, n);
  }

  /** The outcome published for a row of the query. */
  lemma OutcomeIsDecided(db: Db, policy: Id, target: Id, t: Time, n: nat)
    requires Good(db) && target in db.nodes && n < |Walk(db, policy, target, t)|
    ensures |TraceOf(db, policy, target, t)| == |Walk(db, policy, target, t)|
    ensures Decided(db, Walk(db, policy, target, t), TraceOf(db, policy, target, t), n, t)
  {
    ResolutionIsFold(db, policy, target, t);
    var rows := Walk(db, policy, target, t);
    PrefixComesFrom(db, rows, n, t);
    OutcomeOfRow(db, rows, n, t);
    ExemptMeans(db, rows[n].assignment, t);
    DecidedByCore(db, Fold(db, Assignments(rows[..n]), t), rows, Trace(db, rows, t), n, t);
  }

  /** Below a range nothing is applied that breaks it, until another range is opened. */
  lemma AppliedBelowRangeIsWithin(db: Db, policy: Id, target: Id, t: Time, i: nat, n: nat)
    requires Good(db) && target in db.nodes && n < |Walk(db, policy, target, t)|
    requires |TraceOf(db, policy, target, t)| == |Walk(db, policy, target, t)|
    requires LastRange(TraceOf(db, policy, target, t), n, i) && TraceOf(db, policy, target, t)[n].outcome == Applied
    ensures var v := Walk(db, policy, target, t)[n].assignment.value;
            var r := Walk(db, policy, target, t)[i].assignment.range;
            && (r.min.Some? ==> v.Integer? && r.min.value <= v.n)
            && (r.max.Some? ==> v.Integer? && v.n <= r.max.value)
  {
    OutcomeIsDecided(db, policy, target, t, n);
  }

  // --- What an assignment must bring --------------------------------------------------------------------

  /** The input names an exception that exists, is approved, is for this policy and node, and has not
      ended when the assignment starts. */
  predicate BringsException(db: Db, input: Input, now: Time) {
    && input.exemption.Some? && input.exemption.value in db.exemptions
    && var x := db.exemptions[input.exemption.value];
       && x.approved && x.policy == input.policy && x.scope == input.scope
       && (x.until.Some? ==> (if input.from.Some? then input.from.value else now) < x.until.value)
  }

  /** What stands in the way of overriding what the parent resolves to. */
  predicate Forbidden(db: Db, parent: Core, input: Input, now: Time) {
    && parent.source.Some? && input.state != Inherit
    && (|| parent.locked
        || (parent.range.Some? && Breaks(input.value, parent.range.value))
        || (parent.source.value.state == ApprovalRequired && !BringsException(db, input, now)))
  }

  /** A request that cannot be stored at all. */
  predicate Unstorable(db: Db, input: Input) {
    || (input.from.Some? && input.to.Some? && input.to.value <= input.from.value)
    || (input.state == Inherit && input.value != Missing)
    || (input.value == Missing && input.state != Inherit && input.state != NotApplicable)
    || (input.range.min.Some? && (input.range.min.value > MAX_SAFE || input.range.min.value < -MAX_SAFE))
    || (input.range.max.Some? && (input.range.max.value > MAX_SAFE || input.range.max.value < -MAX_SAFE))
    || (input.range.min.Some? && input.range.max.Some? && input.range.max.value < input.range.min.value)
    || input.scope !in db.nodes || input.policy !in db.active
    || (input.value != Missing && !input.fits)
  }

  /** assignPolicy accepts a request exactly if it can be stored and, below a parent, is not forbidden by
      what the policy resolves to there: a lock, a bound of the range, or a missing exception. */
  lemma AcceptedExactlyWhen(db: Db, input: Input, clock: Clock)
    requires WellFormed(db.nodes)
    ensures AssignError(db, input, clock).None?
            <==> (&& !Unstorable(db, input)
                  && (ParentOf(db.nodes, input.scope).Some? ==>
                        !Forbidden(db,
                                   Resolution(db, input.policy, ParentOf(db.nodes, input.scope).value,
                                              if input.from.Some? then input.from.value else clock.resolve),
                                   input, clock.check)))
  {
  }

  /** What is stored: the request, from its start or else the clock, under the number after the highest at
      its node. */
  lemma StoredIs(db: Db, input: Input, id: Id, clock: Clock)
    ensures var after := Assigned(db, input, id, clock); var a := NewRow(db, input, id, clock);
            && after == db.(assignments := db.assignments + [a])
            && a.id == id && a.policy == input.policy && a.scope == input.scope && a.value == input.value
            && a.state == input.state && a.range == input.range && a.to == input.to
            && a.from == (if input.from.Some? then input.from.value else clock.stamp)
            && (forall b :: b in db.assignments && b.policy == input.policy && b.scope == input.scope ==>
                  b.version < a.version)
            && (a.version == 1 || exists b :: b in db.assignments && b.policy == input.policy && b.scope == input.scope
                                              && b.version == a.version - 1)
  {
  }

  /** Which refusal is reported: a lock first, then the range, then the exception. */
  lemma RefusalReported(db: Db, parent: Core, input: Input, now: Time)
    ensures OverrideError(db, parent, input, now).Some? <==> Forbidden(db, parent, input, now)
    ensures OverrideError(db, parent, input, now) == Some(OutOfRange)
            <==> Forbidden(db, parent, input, now) && !parent.locked
                 && parent.range.Some? && Breaks(input.value, parent.range.value)
  {
  }

  /** Below a parent whose resolved source asks for approval, whatever is accepted brings an exception. */
  lemma AcceptedBringsException(db: Db, input: Input, clock: Clock)
    requires Good(db) && AssignError(db, input, clock).None? && input.state != Inherit
    requires ParentOf(db.nodes, input.scope).Some?
    requires var start := if input.from.Some? then input.from.value else clock.resolve;
             var parent := Resolution(db, input.policy, ParentOf(db.nodes, input.scope).value, start);
             parent.source.Some? && parent.source.value.state == ApprovalRequired
    ensures BringsException(db, input, clock.check)
  {
    AcceptedExactlyWhen(db, input, clock);
  }
}
