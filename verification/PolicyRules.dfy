/**
 What policy resolution keeps: one fold step per node, locks that nothing below can move, a
 write-time check that agrees with the fold, and a trace that determines what was resolved.
 */
module PolicyRules {
  import opened Common
  import opened Hierarchy
  import opened Policy

  // --- One step per node ----------------------------------------------------------------------

  /** The fold's step at a node, from what its parent resolves to. */
  function StepAt(db: Db, policy: Id, node: Id, t: Time, c: Core): Core {
    var own := Current(db.assignments, policy, node, t);
    if policy !in db.active || own.None? || OutcomeOf(c, own.value, Exempt(db, policy, node, t)) != Applied then c
    else ApplyTo(c, own.value)
  }

  /** Resolving a node is one step on from resolving its parent; a root starts from nothing. */
  lemma ResolveIsOneStep(db: Db, policy: Id, node: Id, t: Time)
    requires Good(db) && node in db.nodes
    ensures var p := ParentOf(db.nodes, node);
            Resolution(db, policy, node, t)
              == StepAt(db, policy, node, t, if p.Some? then Resolution(db, policy, p.value, t) else START)
  {
    var path := Path(db.nodes, node);
    var p := ParentOf(db.nodes, node);
    assert path[..|path| - 1] == if p.Some? then Path(db.nodes, p.value) else [];
    FoldOneMore(db, policy, path, t);
  }

  lemma FoldOneMore(db: Db, policy: Id, path: seq<Id>, t: Time)
    requires path != []
    ensures Fold(db, Along(db, policy, path, t), t)
            == StepAt(db, policy, path[|path| - 1], t, Fold(db, Along(db, policy, path[..|path| - 1], t), t))
  {
    var before := Along(db, policy, path[..|path| - 1], t);
    var own := Current(db.assignments, policy, path[|path| - 1], t);
    if policy in db.active {
      if own.Some? { assert (before + [own.value])[..|before|] == before; } else { assert before + [] == before; }
    }
  }

  /** A core that carries a lock or a range also names where it came from. */
  lemma {:induction false} FoldHasSource(db: Db, rows: seq<Assignment>, t: Time)
    ensures var c := Fold(db, rows, t);
            && (c.source.None? ==> c == START)
            && (c.source.Some? ==> c.source.value in rows && c.value == c.source.value.value
                                   && (c.approval <==> c.source.value.state == ApprovalRequired)
                                   && (c.locked
                                       <==> c.source.value.state == Locked || c.source.value.state == NotApplicable))
  {
    if rows != [] {
      FoldHasSource(db, rows[..|rows| - 1], t);
      assert rows == rows[..|rows| - 1] + [rows[|rows| - 1]];
    }
  }

  // --- Locks ------------------------------------------------------------------------------------

  /** Nothing assigned off the path, at or below it elsewhere, changes what a node resolves to. */
  lemma {:induction false} AssignedElsewhere(db: Db, extra: seq<Assignment>, policy: Id, path: seq<Id>, t: Time)
    requires forall a :: a in extra ==> a.scope !in path
    ensures var db' := db.(assignments := db.assignments + extra);
            Fold(db', Along(db', policy, path, t), t) == Fold(db, Along(db, policy, path, t), t)
  {
    var db' := db.(assignments := db.assignments + extra);
    if path != [] {
      AssignedElsewhere(db, extra, policy, path[..|path| - 1], t);
      FoldOneMore(db, policy, path, t);
      FoldOneMore(db', policy, path, t);
      StepElsewhere(db, extra, policy, path[|path| - 1], t, Fold(db, Along(db, policy, path[..|path| - 1], t), t));
    }
  }

  lemma StepElsewhere(db: Db, extra: seq<Assignment>, policy: Id, node: Id, t: Time, c: Core)
    requires forall a :: a in extra ==> a.scope != node
    ensures StepAt(db.(assignments := db.assignments + extra), policy, node, t, c) == StepAt(db, policy, node, t, c)
  {
    CurrentElsewhere(db.assignments, extra, policy, node, t);
    assert Exempt(db.(assignments := db.assignments + extra), policy, node, t) == Exempt(db, policy, node, t);
  }

  lemma {:induction false} CurrentElsewhere(assignments: seq<Assignment>, extra: seq<Assignment>, policy: Id, scope: Id,
                                            t: Time)
    requires forall a :: a in extra ==> a.scope != scope
    ensures Current(assignments + extra, policy, scope, t) == Current(assignments, policy, scope, t)
  {
    if extra == [] {
      assert assignments + extra == assignments;
    } else {
      CurrentElsewhere(assignments, extra[..|extra| - 1], policy, scope, t);
      assert (assignments + extra)[..|assignments + extra| - 1] == assignments + extra[..|extra| - 1];
    }
  }

  /** If a policy resolves locked at `n`, it resolves to the same value, source, lock and range at
      every k-th descendant of `n`, whatever assignments are added at nodes that are not above `n`. */
  lemma {:induction false} LockStability(db: Db, extra: seq<Assignment>, policy: Id, n: Id, d: Id, k: nat, t: Time)
    requires Good(db) && Good(db.(assignments := db.assignments + extra))
    requires d in db.nodes && KthParent(db.nodes, d, k) == Some(n) && n in db.nodes
    requires forall a :: a in extra ==> a.scope !in Path(db.nodes, n)
    requires Resolution(db, policy, n, t).locked
    decreases k
    ensures Resolution(db.(assignments := db.assignments + extra), policy, d, t) == Resolution(db, policy, n, t)
  {
    var db' := db.(assignments := db.assignments + extra);
    if k == 0 {
      AssignedElsewhere(db, extra, policy, Path(db.nodes, n), t);
    } else {
      assert KthParent(db.nodes, d, 0) == Some(d);
      KthParentIsEarlier(db.nodes, d, k);
      FirstParent(db.nodes, d, k);
      var p := ParentOf(db.nodes, d).value;
      LockStability(db, extra, policy, n, p, k - 1, t);
      ResolveIsOneStep(db', policy, d, t);
    }
  }

  /** A node with a k-th parent has a parent, of which it is the (k-1)-th. */
  lemma FirstParent(nodes: Nodes, d: Id, k: nat)
    requires WellFormed(nodes) && k > 0 && KthParent(nodes, d, k).Some?
    ensures ParentOf(nodes, d).Some? && ParentOf(nodes, d).value in nodes
    ensures KthParent(nodes, ParentOf(nodes, d).value, k - 1) == KthParent(nodes, d, k)
  {
    KthParentIsEarlier(nodes, d, k);
    assert KthParent(nodes, d, 0) == Some(d);
    if KthParent(nodes, d, 1).None? { NoParentAbove(nodes, d, 1, k); }
    KthParentAdds(nodes, d, 1, k - 1);
  }

  // --- Assigning ----------------------------------------------------------------------------------

  datatype AssignmentError = Malformed | NoSuchTarget | OutOfRange | Denied

  /** Input of assignPolicy; `fits` is the verdict of the definition's value schema. */
  datatype Input = Input(policy: Id, scope: Id, value: Value, state: State, range: Range, from: Option<Time>,
                         to: Option<Time>,
                         exemption: Option<Id>, fits: bool)

  /** The clock readings of one call, in order: resolving the parent, the exception check,
      the row, resolving the node for the answer. */
  datatype Clock = Clock(resolve: Time, check: Time, stamp: Time, report: Time)

  predicate Safe(n: int) {
    -MAX_SAFE <= n <= MAX_SAFE
  }

  predicate IllFormed(input: Input) {
    || (input.from.Some? && input.to.Some? && input.to.value <= input.from.value)
    || (input.state == Inherit && input.value != Missing)
    || (input.state != Inherit && input.state != NotApplicable && input.value == Missing)
    || (input.range.min.Some? && !Safe(input.range.min.value))
         || (input.range.max.Some? && !Safe(input.range.max.value))
    || (input.range.min.Some? && input.range.max.Some? && input.range.min.value > input.range.max.value)
  }

  function Or(o: Option<Time>, t: Time): Time {
    if o.Some? then o.value else t
  }

  /** assertOverrideAllowed against what the parent resolves to. */
  function OverrideError(db: Db, parent: Core, input: Input, now: Time): Option<AssignmentError> {
    if parent.source.None? || input.state == Inherit then None
    else if parent.locked then Some(Denied)
    else if parent.range.Some? && !Within(input.value, parent.range.value) then Some(OutOfRange)
    else if parent.source.value.state == ApprovalRequired then
      if input.exemption.None? then Some(Denied)
      else if input.exemption.value !in db.exemptions then Some(Denied)
      else
        var x := db.exemptions[input.exemption.value];
        if x.policy == input.policy && x.scope == input.scope && x.approved
          && (x.until.None? || x.until.value > Or(input.from, now))
        then None else Some(Denied)
    else None
  }

  /** Everything assignPolicy checks before it writes. */
  function AssignError(db: Db, input: Input, clock: Clock): Option<AssignmentError>
    requires WellFormed(db.nodes)
  {
    if IllFormed(input) then Some(Malformed)
    else if input.scope !in db.nodes || input.policy !in db.active then Some(NoSuchTarget)
    else if input.value != Missing && !input.fits then Some(Malformed)
    else
      var p := ParentOf(db.nodes, input.scope);
      if p.None? then None
      else OverrideError(db, Resolution(db, input.policy, p.value, Or(input.from, clock.resolve)), input, clock.check)
  }

  function NewRow(db: Db, input: Input, id: Id, clock: Clock): Assignment {
    Assignment(id, input.policy, input.scope, input.value, input.state, input.range, Or(input.from, clock.stamp),
               input.to,
               NextVersion(db.assignments, input.policy, input.scope))
  }

  function Assigned(db: Db, input: Input, id: Id, clock: Clock): Db {
    db.(assignments := db.assignments + [NewRow(db, input, id, clock)])
  }

  lemma NewRowKeepsKeys(db: Db, input: Input, id: Id, clock: Clock)
    requires Keyed(db.assignments) && forall a :: a in db.assignments ==> a.id != id
    ensures Keyed(Assigned(db, input, id, clock).assignments)
  {
    var after := Assigned(db, input, id, clock).assignments;
    forall i, j | 0 <= i < j < |after|
      ensures after[i].id != after[j].id
      ensures At(after[i], after[j].policy, after[j].scope) ==> after[i].version != after[j].version {
      assert after[i] in db.assignments;
    }
  }

  /** The new row is at once the node's current assignment at its own start. */
  lemma NewRowIsCurrent(db: Db, input: Input, id: Id, clock: Clock)
    requires input.from.Some? && !IllFormed(input)
    ensures Current(Assigned(db, input, id, clock).assignments, input.policy, input.scope, input.from.value)
            == Some(NewRow(db, input, id, clock))
  {
    var after := Assigned(db, input, id, clock).assignments;
    assert after[..|after| - 1] == db.assignments;
  }

  /** Accepted means applied. When assignPolicy accepts a non-INHERIT assignment with an explicit
      start, resolving that node at that start reports the new assignment as the source exactly
      when the exception it needed, if it needed one, has started by then. */
  lemma AcceptedMeansApplied(db: Db, input: Input, id: Id, clock: Clock)
    requires Good(db) && (forall a :: a in db.assignments ==> a.id != id)
    requires AssignError(db, input, clock).None?
    requires input.state != Inherit && input.from.Some?
    ensures var e := input.from.value; var db' := Assigned(db, input, id, clock);
            var row := NewRow(db, input, id, clock);
            var p := ParentOf(db.nodes, input.scope);
            && Good(db')
            && (Resolution(db', input.policy, input.scope, e).source == Some(row)
                <==> (p.Some? && Resolution(db, input.policy, p.value, e).approval
                      ==> Exempt(db, input.policy, input.scope, e)))
            && (Resolution(db', input.policy, input.scope, e).source == Some(row)
                ==> Resolution(db', input.policy, input.scope, e).value == input.value)
  {
    NewRowKeepsKeys(db, input, id, clock);
    NewRowIsCurrent(db, input, id, clock);
    var e, db' := input.from.value, Assigned(db, input, id, clock);
    ResolveIsOneStep(db', input.policy, input.scope, e);
    var p := ParentOf(db.nodes, input.scope);
    if p.Some? { ParentUnaffected(db, input, id, clock); }
    CheckedStepApplies(db, input, id, clock, if p.Some? then Resolution(db, input.policy, p.value, e) else START);
  }

  // One accepted assignment that is not applied: a node below one whose policy asks for approval,
  // with an exception that starts at 100 and an assignment from 10.

  const ROOT := Node(0, 0, Group, None, None, None, None, None, true)
  const LEAF := Node(1, 1, Region, Some(0), None, None, None, None, true)
  const TREE := map[0 := ROOT, 1 := LEAF]
  const ABOVE := Assignment(0, 0, 0, Integer(1), ApprovalRequired, Range(None, None), 0, None, 1)
  const LATE := Db(TREE, {Row(0, 0, 0), Row(1, 1, 0), Row(0, 1, 1)}, {0}, [ABOVE],
                   map[0 := Exemption(0, 1, true, Some(100), None)])
  const EARLY := Input(0, 1, Integer(2), LocalValue, Range(None, None), Some(10), None, Some(0), true)

  lemma RootIsGood()
    ensures WellFormed(map[0 := ROOT]) && ClosureIs(map[0 := ROOT], {Row(0, 0, 0)})
  {
    InsertKeepsTree(map[], 0, ROOT);
    forall r: Row
      ensures KthParent(map[], r.descendant, r.depth).None?
    {
      UnknownHasNoParents(map[], r.descendant, r.depth);
    }
    InsertKeepsClosure(map[], {}, 0, ROOT);
    assert map[][0 := ROOT] == map[0 := ROOT] && Closed({}, 0, None) == {Row(0, 0, 0)};
  }

  lemma TreeIsGood()
    ensures Good(LATE)
  {
    RootIsGood();
    InsertKeepsTree(map[0 := ROOT], 1, LEAF);
    InsertKeepsClosure(map[0 := ROOT], {Row(0, 0, 0)}, 1, LEAF);
    assert Closed({Row(0, 0, 0)}, 1, Some(0)) == LATE.closure;
    assert map[0 := ROOT][1 := LEAF] == TREE;
  }

  lemma ApprovalIsPending()
    requires WellFormed(TREE)
    ensures Resolution(LATE, 0, 0, 10) == Core(Integer(1), Some(ABOVE), false, None, true)
  {
    assert Path(TREE, 0) == [0] && [0][..0] == [] && LATE.assignments[..0] == [];
    assert Current(LATE.assignments, 0, 0, 10) == Some(ABOVE);
    assert Along(LATE, 0, [], 10) == [];
    assert Along(LATE, 0, [0], 10) == [ABOVE];
    assert [ABOVE][..0] == [] && Fold(LATE, [], 10) == START;
  }

  /** assignPolicy accepts it, and resolution at its own node and start reports something else. */
  lemma AcceptedNotApplied(clock: Clock)
    ensures Good(LATE) && AssignError(LATE, EARLY, clock).None?
    ensures Good(Assigned(LATE, EARLY, 1, clock))
    ensures Resolution(Assigned(LATE, EARLY, 1, clock), 0, 1, 10).source != Some(NewRow(LATE, EARLY, 1, clock))
  {
    TreeIsGood();
    ApprovalIsPending();
    assert ParentOf(LATE.nodes, 1) == Some(0);
    AcceptedMeansApplied(LATE, EARLY, 1, clock);
  }

  /** The new row changes nothing about what the parent resolves to. */
  lemma ParentUnaffected(db: Db, input: Input, id: Id, clock: Clock)
    requires Good(db) && Good(Assigned(db, input, id, clock)) && input.scope in db.nodes
    requires ParentOf(db.nodes, input.scope).Some?
    requires input.from.Some?
    ensures var p := ParentOf(db.nodes, input.scope).value; var c := Resolution(db, input.policy, p, input.from.value);
            Resolution(Assigned(db, input, id, clock), input.policy, p, input.from.value) == c && FromRows(db, c)
  {
    var path := Path(db.nodes, ParentOf(db.nodes, input.scope).value);
    NotAboveItself(db.nodes, input.scope);
    AssignedElsewhere(db, [NewRow(db, input, id, clock)], input.policy, path, input.from.value);
    FoldHasSource(db, Along(db, input.policy, path, input.from.value), input.from.value);
    FoldRows(db, input.policy, path, input.from.value);
  }

  /** What a fold over stored rows carries. */
  predicate FromRows(db: Db, c: Core) {
    && (c.source.None? ==> c == START)
    && (c.source.Some?
        ==> c.source.value in db.assignments && (c.approval <==> c.source.value.state == ApprovalRequired)
                           && (c.locked <==> c.source.value.state == Locked || c.source.value.state == NotApplicable))
  }

  /** A row that passed the override check is applied on top of what it was checked against,
      unless an approval is pending for it. */
  lemma CheckedStepApplies(db: Db, input: Input, id: Id, clock: Clock, c: Core)
    requires FromRows(db, c) && OverrideError(db, c, input, clock.check).None? && input.state != Inherit
    requires input.from.Some?
    requires input.policy in db.active && forall a :: a in db.assignments ==> a.id != id
    requires var row := NewRow(db, input, id, clock);
             Current(Assigned(db, input, id, clock).assignments, input.policy, input.scope, input.from.value)
               == Some(row)
    ensures var row := NewRow(db, input, id, clock);
            var after := StepAt(Assigned(db, input, id, clock), input.policy, input.scope, input.from.value, c);
            && (after.source == Some(row) <==> (c.approval ==> Exempt(db, input.policy, input.scope, input.from.value)))
            && (after.source == Some(row) ==> after.value == input.value)
  {
    assert Exempt(Assigned(db, input, id, clock), input.policy, input.scope, input.from.value)
           == Exempt(db, input.policy, input.scope, input.from.value);
  }

  lemma {:induction false} FoldRows(db: Db, policy: Id, path: seq<Id>, t: Time)
    ensures forall a :: a in Along(db, policy, path, t) ==> a in db.assignments
  {
    if path != [] { FoldRows(db, policy, path[..|path| - 1], t); }
  }

  lemma NotAboveItself(nodes: Nodes, id: Id)
    requires WellFormed(nodes) && id in nodes && ParentOf(nodes, id).Some?
    ensures id !in Path(nodes, ParentOf(nodes, id).value)
  {
    var p := ParentOf(nodes, id).value;
    var path := Path(nodes, p);
    forall i | 0 <= i < |path| ensures path[i] != id {
      PathListsParents(nodes, p, 0);
      PathListsParents(nodes, p, |path| - 1 - i);
      KthParentIsEarlier(nodes, p, |path| - 1 - i);
    }
  }

  // --- The trace ------------------------------------------------------------------------------------

  /** One step of the published trace. It names the assignment but not its range. */
  datatype TraceStep = TraceStep(scope: Id, depth: nat, assignment: Id, state: State, value: Value, outcome: Outcome,
                                 from: Time)

  function Trace(db: Db, rows: seq<QueryRow>, t: Time): seq<TraceStep> {
    if rows == [] then []
    else
      var before := rows[..|rows| - 1];
      var q := rows[|rows| - 1];
      var a := q.assignment;
      var outcome := OutcomeOf(Fold(db, Assignments(before), t), a, Exempt(db, a.policy, a.scope, t));
      Trace(db, before, t) + [TraceStep(a.scope, q.depth, a.id, a.state, a.value, outcome, a.from)]
  }

  function TraceOf(db: Db, policy: Id, target: Id, t: Time): seq<TraceStep>
    requires Good(db) && target in db.nodes
  {
    PathListsParents(db.nodes, target, 0);
    Trace(db, PathRows(db, policy, Path(db.nodes, target), |Path(db.nodes, target)| - 1, t), t)
  }

  /** The assignment with a given id. */
  function Lookup(assignments: seq<Assignment>, id: Id): Option<Assignment> {
    if assignments == [] then None
    else if assignments[|assignments| - 1].id == id then Some(assignments[|assignments| - 1])
    else Lookup(assignments[..|assignments| - 1], id)
  }

  /** What a trace alone, with the table its ids point into, says was resolved. */
  function Replay(assignments: seq<Assignment>, trace: seq<TraceStep>): Core {
    if trace == [] then START
    else
      var c := Replay(assignments, trace[..|trace| - 1]);
      var s := trace[|trace| - 1];
      var a := Lookup(assignments, s.assignment);
      if s.outcome == Applied && a.Some? then ApplyTo(c, a.value) else c
  }

  lemma {:induction false} LookupFinds(assignments: seq<Assignment>, a: Assignment)
    requires Keyed(assignments) && a in assignments
    ensures Lookup(assignments, a.id) == Some(a)
  {
    var rest := assignments[..|assignments| - 1];
    assert assignments == rest + [assignments[|assignments| - 1]];
    if a in rest {
      LookupFinds(rest, a);
      var i :| 0 <= i < |rest| && rest[i] == a;
      assert assignments[i].id != assignments[|assignments| - 1].id;
    }
  }

  lemma {:induction false} TraceReplays(db: Db, rows: seq<QueryRow>, t: Time)
    requires Keyed(db.assignments) && forall q :: q in rows ==> q.assignment in db.assignments
    ensures Replay(db.assignments, Trace(db, rows, t)) == Fold(db, Assignments(rows), t)
  {
    if rows != [] {
      var before := rows[..|rows| - 1];
      var q := rows[|rows| - 1];
      TraceReplays(db, before, t);
      LookupFinds(db.assignments, q.assignment);
      assert Trace(db, rows, t)[..|Trace(db, rows, t)| - 1] == Trace(db, before, t);
      assert Assignments(rows)[..|Assignments(rows)| - 1] == Assignments(before);
    }
  }

  /** The trace, read against any later state of the insert-only table, tells what was resolved. */
  lemma TraceDetermines(db: Db, policy: Id, target: Id, t: Time)
    requires Good(db) && target in db.nodes
    ensures Replay(db.assignments, TraceOf(db, policy, target, t)) == Resolution(db, policy, target, t)
  {
    var path := Path(db.nodes, target);
    PathListsParents(db.nodes, target, 0);
    var rows := PathRows(db, policy, path, |path| - 1, t);
    if policy in db.active {
      forall q | q in rows ensures q.assignment in db.assignments { PathRowMember(db, policy, path, |path| - 1, t, q); }
    }
    TraceReplays(db, rows, t);
    PathRowsAlong(db, policy, path, |path| - 1, t);
  }

  /** Inserting rows does not change what a trace of older rows replays to. */
  lemma {:induction false} ReplayLater(older: seq<Assignment>, later: seq<Assignment>, trace: seq<TraceStep>)
    requires Keyed(later) && older <= later
    requires forall s :: s in trace ==> Lookup(older, s.assignment).Some?
    ensures Replay(later, trace) == Replay(older, trace)
  {
    if trace != [] {
      var s := trace[|trace| - 1];
      assert s in trace;
      ReplayLater(older, later, trace[..|trace| - 1]);
      var a := LookupMember(older, s.assignment);
      assert a in later;
      LookupFinds(later, a);
    }
  }

  lemma {:induction false} LookupMember(assignments: seq<Assignment>, id: Id) returns (a: Assignment)
    requires Lookup(assignments, id).Some?
    ensures Lookup(assignments, id) == Some(a) && a in assignments && a.id == id
  {
    if assignments[|assignments| - 1].id == id { a := assignments[|assignments| - 1]; }
    else { a := LookupMember(assignments[..|assignments| - 1], id); }
  }

  lemma {:induction false} TraceNamesRows(db: Db, rows: seq<QueryRow>, t: Time)
    requires Keyed(db.assignments) && forall q :: q in rows ==> q.assignment in db.assignments
    ensures forall s :: s in Trace(db, rows, t) ==> Lookup(db.assignments, s.assignment).Some?
  {
    if rows != [] {
      TraceNamesRows(db, rows[..|rows| - 1], t);
      LookupFinds(db.assignments, rows[|rows| - 1].assignment);
    }
  }

  /** The watermark is sound: assignments being insert-only, if the trace of a policy at a node is
      the same at two moments, then so are the value, the source, the lock and the range resolved,
      whatever was inserted, however exceptions changed and whatever the clock says in between. */
  lemma EqualTracesResolveEqually(before: Db, after: Db, policy: Id, target: Id, t: Time, t': Time)
    requires Good(before) && Good(after) && target in before.nodes && target in after.nodes
    requires before.assignments <= after.assignments
    requires TraceOf(before, policy, target, t) == TraceOf(after, policy, target, t')
    ensures Resolution(before, policy, target, t) == Resolution(after, policy, target, t')
  {
    TraceDetermines(before, policy, target, t);
    TraceDetermines(after, policy, target, t');
    TraceNames(before, policy, target, t);
    ReplayLater(before.assignments, after.assignments, TraceOf(before, policy, target, t));
  }

  lemma TraceNames(db: Db, policy: Id, target: Id, t: Time)
    requires Good(db) && target in db.nodes
    ensures forall s :: s in TraceOf(db, policy, target, t) ==> Lookup(db.assignments, s.assignment).Some?
  {
    var path := Path(db.nodes, target);
    PathListsParents(db.nodes, target, 0);
    var rows := PathRows(db, policy, path, |path| - 1, t);
    if policy in db.active {
      forall q | q in rows ensures q.assignment in db.assignments { PathRowMember(db, policy, path, |path| - 1, t, q); }
    }
    TraceNamesRows(db, rows, t);
  }

  lemma OneMoreRow(db: Db, rows: seq<QueryRow>, i: nat, t: Time)
    requires i < |rows|
    ensures var c := Fold(db, Assignments(rows[..i]), t); var a := rows[i].assignment;
            var outcome := OutcomeOf(c, a, Exempt(db, a.policy, a.scope, t));
            && Fold(db, Assignments(rows[..i + 1]), t) == (if outcome == Applied then ApplyTo(c, a) else c)
            && Trace(db, rows[..i + 1], t)
                 == Trace(db, rows[..i], t)
                   + [TraceStep(a.scope, rows[i].depth, a.id, a.state, a.value, outcome, a.from)]
  {
    assert rows[..i + 1][..i] == rows[..i];
    var list := Assignments(rows[..i + 1]);
    assert list == Assignments(rows[..i]) + [rows[i].assignment];
    assert list[..|list| - 1] == Assignments(rows[..i]);
  }

  // --- The service ------------------------------------------------------------------------------------

  class Service {
    var nodes: Nodes
    var closure: set<Row>
    var active: set<Id>
    var assignments: seq<Assignment>
    var exemptions: map<Id, Exemption>

    ghost function View(): Db
      reads this
    {
      Db(nodes, closure, active, assignments, exemptions)
    }

    ghost predicate Valid()
      reads this
    {
      Good(View())
    }

    constructor (nodes: Nodes, closure: set<Row>)
      requires WellFormed(nodes) && ClosureIs(nodes, closure)
      ensures Valid() && View() == Db(nodes, closure, {}, [], map[])
    {
      this.nodes, this.closure := nodes, closure;
      active, assignments, exemptions := {}, [], map[];
    }

    /** The rows of the resolution query, farthest ancestor first. */
    method QueryRows(policy: Id, target: Id, at: Time) returns (rows: seq<QueryRow>)
      requires Valid() && target in nodes
      ensures policy in active ==> Answers(View(), policy, target, at, rows)
      ensures rows == Walk(View(), policy, target, at)
    {
      var path := Path(nodes, target);
      PathListsParents(nodes, target, 0);
      rows := PathRows(Db(nodes, closure, active, assignments, exemptions), policy, path, |path| - 1, at);
      if policy in active { WalkAnswers(View(), policy, target, at); }
    }

    /** resolvePolicy: one pass over the rows, carrying the value, its source, the lock, the range
        and the pending approval. */
    method ResolvePolicy(policy: Id, target: Id, at: Time) returns (core: Core, trace: seq<TraceStep>)
      requires Valid() && target in nodes
      ensures core == Resolution(View(), policy, target, at)
      ensures trace == TraceOf(View(), policy, target, at)
    {
      var rows := QueryRows(policy, target, at);
      var value, source, locked, range, approval := Missing, None, false, None, false;
      trace := [];
      var i := 0;
      while i < |rows|
        invariant i <= |rows|
        invariant Core(value, source, locked, range, approval) == Fold(View(), Assignments(rows[..i]), at)
        invariant trace == Trace(View(), rows[..i], at)
      {
        var a := rows[i].assignment;
        var outcome := Applied;
        if a.state == Inherit {
          outcome := Inherited;
        } else if locked {
          outcome := BlockedLock;
        } else if approval && !Exempt(Db(nodes, closure, active, assignments, exemptions), a.policy, a.scope, at) {
          outcome := NeedsApproval;
        } else if range.Some? && !Within(a.value, range.value) {
          outcome := BlockedRange;
        } else {
          value, source := a.value, Some(a);
          approval := a.state == ApprovalRequired;
          if a.state == AllowedWithinRange { range := Some(a.range); }
          if a.state == Locked || a.state == NotApplicable { locked := true; }
        }
        trace := trace + [TraceStep(a.scope, rows[i].depth, a.id, a.state, a.value, outcome, a.from)];
        OneMoreRow(View(), rows, i, at);
        i := i + 1;
      }
      assert rows[..|rows|] == rows;
      var path := Path(nodes, target);
      PathListsParents(nodes, target, 0);
      PathRowsAlong(View(), policy, path, |path| - 1, at);
      core := Core(value, source, locked, range, approval);
    }

    /** assignPolicy: check, number, insert, and resolve again. */
    method AssignPolicy(input: Input, id: Id, clock: Clock) returns (r: Result<Core, AssignmentError>)
      requires Valid() && forall a :: a in assignments ==> a.id != id
      modifies this`assignments
      ensures Valid()
      ensures var failure := AssignError(old(View()), input, clock);
              match failure
              case Some(e) => r == Err(e) && assignments == old(assignments)
              case None => View() == Assigned(old(View()), input, id, clock)
                           && r == Ok(Resolution(View(), input.policy, input.scope, Or(input.from, clock.report)))
    {
      if IllFormed(input) { return Err(Malformed); }
      if input.scope !in nodes || input.policy !in active { return Err(NoSuchTarget); }
      if input.value != Missing && !input.fits { return Err(Malformed); }
      var parent := ParentOf(nodes, input.scope);
      if parent.Some? {
        var inherited, trace := ResolvePolicy(input.policy, parent.value, Or(input.from, clock.resolve));
        var failure := OverrideError(Db(nodes, closure, active, assignments, exemptions), inherited, input,
                                     clock.check);
        if failure.Some? { return Err(failure.value); }
      }
      var version := NextVersion(assignments, input.policy, input.scope);
      NewRowKeepsKeys(View(), input, id, clock);
      assignments := assignments + [Assignment(id, input.policy, input.scope, input.value, input.state, input.range,
                                               Or(input.from, clock.stamp), input.to, version)];
      var core, trace := ResolvePolicy(input.policy, input.scope, Or(input.from, clock.report));
      r := Ok(core);
    }
  }
}
