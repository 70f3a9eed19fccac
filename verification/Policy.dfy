/**
 Enterprise policies: assignments at tree nodes, the write-time override check, and the
 read-time fold down the path from the root that resolves a policy at a node.
 */
module Policy {
  import opened Common
  import opened Hierarchy

  // --- Tables ---------------------------------------------------------------------------------

  datatype State =
    | Inherit | LocalValue | Locked | AllowedOverride | AllowedWithinRange | ApprovalRequired | NotApplicable

  /** A JSON policy value: absent, a safe integer, or anything else together with the integer the
      code coerces it to. */
  datatype Value = Missing | Integer(n: int) | Other(coerced: int)

  function NumberOf(v: Value): int {
    match v
    case Missing => 0
    case Integer(n) => n
    case Other(k) => k
  }

  datatype Range = Range(min: Option<int>, max: Option<int>)

  predicate Within(v: Value, r: Range) {
    if r.min.None? && r.max.None? then true
    else v.Integer? && (r.min.None? || r.min.value <= v.n) && (r.max.None? || v.n <= r.max.value)
  }

  /** One row of enterprise_policy_assignments, which is insert-only. */
  datatype Assignment = Assignment(id: Id, policy: Id, scope: Id, value: Value, state: State, range: Range,
                                   from: Time, to: Option<Time>, version: nat)

  datatype Exemption = Exemption(policy: Id, scope: Id, approved: bool, from: Option<Time>, until: Option<Time>)

  /** The tables a resolution reads; `active` are the policies whose definition is active. */
  datatype Db = Db(nodes: Nodes, closure: set<Row>, active: set<Id>, assignments: seq<Assignment>, exemptions: map<Id,
                   Exemption>)

  predicate InForce(a: Assignment, t: Time) {
    a.from <= t && (a.to.None? || a.to.value > t)
  }

  predicate At(a: Assignment, policy: Id, scope: Id) {
    a.policy == policy && a.scope == scope
  }

  /** The keys of the assignment table: ids are unique, and so are versions per policy and node. */
  ghost predicate Keyed(assignments: seq<Assignment>) {
    forall i, j :: 0 <= i < j < |assignments| ==>
      && assignments[i].id != assignments[j].id
      && (At(assignments[i], assignments[j].policy, assignments[j].scope)
          ==> assignments[i].version != assignments[j].version)
  }

  ghost predicate Good(db: Db) {
    WellFormed(db.nodes) && ClosureIs(db.nodes, db.closure) && Keyed(db.assignments)
  }

  /** The assignment a node contributes at `t`: its highest version in force. */
  function Current(assignments: seq<Assignment>, policy: Id, scope: Id, t: Time): (r: Option<Assignment>)
    ensures r.Some? ==> r.value in assignments && At(r.value, policy, scope) && InForce(r.value, t)
    ensures forall a :: a in assignments && At(a, policy, scope) && InForce(a, t) ==>
              r.Some? && a.version <= r.value.version
  {
    if assignments == [] then None
    else
      var last := assignments[|assignments| - 1];
      var rest := assignments[..|assignments| - 1];
      assert assignments == rest + [last];
      var best := Current(rest, policy, scope, t);
      if At(last, policy, scope) && InForce(last, t) && (best.None? || best.value.version < last.version)
      then Some(last) else best
  }

  /** The number of the next version at a node. */
  function NextVersion(assignments: seq<Assignment>, policy: Id, scope: Id): (v: nat)
    ensures forall a :: a in assignments && At(a, policy, scope) ==> a.version < v
    ensures v == 1 || exists a :: a in assignments && At(a, policy, scope) && a.version == v - 1
  {
    if assignments == [] then 1
    else
      var last := assignments[|assignments| - 1];
      var rest := NextVersion(assignments[..|assignments| - 1], policy, scope);
      assert assignments == assignments[..|assignments| - 1] + [last];
      if At(last, policy, scope) && rest <= last.version then last.version + 1 else rest
  }

  predicate Exempt(db: Db, policy: Id, scope: Id, t: Time) {
    exists e :: e in db.exemptions &&
      var x := db.exemptions[e];
      x.policy == policy && x.scope == scope && x.approved
      && (x.from.None? || x.from.value <= t) && (x.until.None? || x.until.value > t)
  }

  // --- The fold -------------------------------------------------------------------------------

  datatype Outcome = Applied | Inherited | BlockedLock | NeedsApproval | BlockedRange

  /** What the fold carries from node to node. */
  datatype Core = Core(value: Value, source: Option<Assignment>, locked: bool, range: Option<Range>, approval: bool)

  const START: Core := Core(Missing, None, false, None, false)

  function OutcomeOf(c: Core, a: Assignment, exempt: bool): Outcome {
    if a.state == Inherit then Inherited
    else if c.locked then BlockedLock
    else if c.approval && !exempt then NeedsApproval
    else if c.range.Some? && !Within(a.value, c.range.value) then BlockedRange
    else Applied
  }

  function ApplyTo(c: Core, a: Assignment): Core {
    Core(a.value, Some(a), a.state == Locked || a.state == NotApplicable,
         if a.state == AllowedWithinRange then Some(a.range) else c.range,
         a.state == ApprovalRequired)
  }

  function Fold(db: Db, rows: seq<Assignment>, t: Time): Core {
    if rows == [] then START
    else
      var c := Fold(db, rows[..|rows| - 1], t);
      var a := rows[|rows| - 1];
      if OutcomeOf(c, a, Exempt(db, a.policy, a.scope, t)) == Applied then ApplyTo(c, a) else c
  }

  /** The assignments that take part, root first. */
  function Along(db: Db, policy: Id, path: seq<Id>, t: Time): seq<Assignment> {
    if path == [] || policy !in db.active then []
    else
      var own := Current(db.assignments, policy, path[|path| - 1], t);
      Along(db, policy, path[..|path| - 1], t) + if own.Some? then [own.value] else []
  }

  function Resolution(db: Db, policy: Id, target: Id, t: Time): Core
    requires WellFormed(db.nodes) && target in db.nodes
  {
    Fold(db, Along(db, policy, Path(db.nodes, target), t), t)
  }

  // --- The query ------------------------------------------------------------------------------

  /** A row of the resolution query: an assignment and its node's depth above the target. */
  datatype QueryRow = QueryRow(assignment: Assignment, depth: nat)

  predicate Selected(db: Db, policy: Id, target: Id, t: Time, q: QueryRow) {
    && policy in db.active && q.assignment in db.assignments && q.assignment.policy == policy
    && InForce(q.assignment, t)
    && Row(q.assignment.scope, target, q.depth) in db.closure
    && forall b :: b in db.assignments && At(b, policy, q.assignment.scope) && InForce(b, t) ==>
         b.version <= q.assignment.version
  }

  /** `rows` answers the query: every selected row once, farthest ancestor first. */
  ghost predicate Answers(db: Db, policy: Id, target: Id, t: Time, rows: seq<QueryRow>) {
    && (forall i :: 0 <= i < |rows| ==> Selected(db, policy, target, t, rows[i]))
    && (forall q :: Selected(db, policy, target, t, q) ==> q in rows)
    && (forall i, j :: 0 <= i < j < |rows| ==> rows[i] != rows[j] && rows[i].depth >= rows[j].depth)
  }

  /** The same rows read off the path; `top` is the depth of the path's first node. */
  function PathRows(db: Db, policy: Id, path: seq<Id>, top: nat, t: Time): seq<QueryRow>
    requires |path| <= top + 1
  {
    if path == [] || policy !in db.active then []
    else
      var own := Current(db.assignments, policy, path[|path| - 1], t);
      PathRows(db, policy, path[..|path| - 1], top, t)
      + if own.Some? then [QueryRow(own.value, top + 1 - |path|)] else []
  }

  function Assignments(rows: seq<QueryRow>): seq<Assignment> {
    if rows == [] then [] else Assignments(rows[..|rows| - 1]) + [rows[|rows| - 1].assignment]
  }

  lemma {:induction false} PathRowsAlong(db: Db, policy: Id, path: seq<Id>, top: nat, t: Time)
    requires |path| <= top + 1
    ensures Assignments(PathRows(db, policy, path, top, t)) == Along(db, policy, path, t)
  {
    if path != [] && policy in db.active {
      var short := path[..|path| - 1];
      PathRowsAlong(db, policy, short, top, t);
      var before, rows := PathRows(db, policy, short, top, t), PathRows(db, policy, path, top, t);
      if |rows| > |before| { assert rows[..|rows| - 1] == before; } else { assert rows == before; }
    }
  }

  lemma {:induction false} PathRowMember(db: Db, policy: Id, path: seq<Id>, top: nat, t: Time, q: QueryRow)
    requires |path| <= top + 1 && policy in db.active
    ensures q in PathRows(db, policy, path, top, t)
            <==> (&& top + 1 - |path| <= q.depth <= top
                  && Current(db.assignments, policy, path[top - q.depth], t) == Some(q.assignment))
  {
    if path != [] {
      var short := path[..|path| - 1];
      PathRowMember(db, policy, short, top, t, q);
      if top + 1 - |short| <= q.depth <= top { assert path[top - q.depth] == short[top - q.depth]; }
    }
  }

  ghost predicate Descending(rows: seq<QueryRow>) {
    forall i, j :: 0 <= i < j < |rows| ==> rows[i].depth > rows[j].depth
  }

  ghost predicate AtLeast(rows: seq<QueryRow>, depth: int) {
    forall i :: 0 <= i < |rows| ==> rows[i].depth >= depth
  }

  lemma {:induction false} PathRowsDescend(db: Db, policy: Id, path: seq<Id>, top: nat, t: Time)
    requires |path| <= top + 1
    ensures AtLeast(PathRows(db, policy, path, top, t), top + 1 - |path|)
    ensures Descending(PathRows(db, policy, path, top, t))
  {
    if path != [] && policy in db.active {
      var before := PathRows(db, policy, path[..|path| - 1], top, t);
      PathRowsDescend(db, policy, path[..|path| - 1], top, t);
      assert AtLeast(before, top + 2 - |path|);
      var own := Current(db.assignments, policy, path[|path| - 1], t);
      assert PathRows(db, policy, path, top, t)
             == before + if own.Some? then [QueryRow(own.value, top + 1 - |path|)] else [];
    }
  }

  /** With unique versions, being the highest version in force identifies the current assignment. */
  lemma CurrentIsHighest(assignments: seq<Assignment>, policy: Id, scope: Id, t: Time, a: Assignment)
    requires Keyed(assignments) && a in assignments && At(a, policy, scope) && InForce(a, t)
    ensures Current(assignments, policy, scope, t) == Some(a)
            <==> forall b :: b in assignments && At(b, policy, scope) && InForce(b, t) ==> b.version <= a.version
  {
    var c := Current(assignments, policy, scope, t).value;
    if c != a {
      var i :| 0 <= i < |assignments| && assignments[i] == a;
      var j :| 0 <= j < |assignments| && assignments[j] == c;
    }
  }

  lemma SelectedOnPath(db: Db, policy: Id, target: Id, t: Time, q: QueryRow)
    requires Good(db) && target in db.nodes && policy in db.active
    ensures var path := Path(db.nodes, target);
            Selected(db, policy, target, t, q)
            <==> (&& q.depth < |path|
                  && Current(db.assignments, policy, path[|path| - 1 - q.depth], t) == Some(q.assignment))
  {
    PathListsParents(db.nodes, target, q.depth);
    if q.assignment in db.assignments && q.assignment.policy == policy && InForce(q.assignment, t) {
      CurrentIsHighest(db.assignments, policy, q.assignment.scope, t, q.assignment);
    }
    assert Row(q.assignment.scope, target, q.depth) in db.closure
           <==> KthParent(db.nodes, target, q.depth) == Some(q.assignment.scope);
  }

  ghost function Walk(db: Db, policy: Id, target: Id, t: Time): (rows: seq<QueryRow>)
    requires Good(db) && target in db.nodes
  {
    PathRows(db, policy, Path(db.nodes, target), |Path(db.nodes, target)| - 1, t)
  }

  lemma WalkMember(db: Db, policy: Id, target: Id, t: Time, q: QueryRow)
    requires Good(db) && target in db.nodes && policy in db.active
    ensures q in Walk(db, policy, target, t) <==> Selected(db, policy, target, t, q)
  {
    var path := Path(db.nodes, target);
    PathRowMember(db, policy, path, |path| - 1, t, q);
    SelectedOnPath(db, policy, target, t, q);
  }

  lemma WalkAnswers(db: Db, policy: Id, target: Id, t: Time)
    requires Good(db) && target in db.nodes && policy in db.active
    ensures Answers(db, policy, target, t, Walk(db, policy, target, t))
    ensures Descending(Walk(db, policy, target, t))
  {
    PathRowsDescend(db, policy, Path(db.nodes, target), |Path(db.nodes, target)| - 1, t);
    var rows := Walk(db, policy, target, t);
    forall i | 0 <= i < |rows|
      ensures Selected(db, policy, target, t, rows[i])
    {
      WalkMember(db, policy, target, t, rows[i]);
    }
    forall q | Selected(db, policy, target, t, q) ensures q in rows { WalkMember(db, policy, target, t, q); }
    forall i, j | 0 <= i < j < |rows|
      ensures rows[i] != rows[j] && rows[i].depth >= rows[j].depth
    {
      assert rows[i].depth > rows[j].depth;
    }
  }

  /** Of two rows of an answer the earlier lies strictly above the later. */
  lemma AnswersDescend(db: Db, policy: Id, target: Id, t: Time, rows: seq<QueryRow>, i: nat, j: nat)
    requires Good(db) && target in db.nodes && policy in db.active
    requires Answers(db, policy, target, t, rows) && i < j < |rows|
    ensures rows[i].depth > rows[j].depth
  {
    SelectedOnPath(db, policy, target, t, rows[i]);
    SelectedOnPath(db, policy, target, t, rows[j]);
  }

  /** The walk down the path answers the query, and nothing else does. */
  lemma QueryIsPath(db: Db, policy: Id, target: Id, t: Time, rows: seq<QueryRow>)
    requires Good(db) && target in db.nodes && policy in db.active
    ensures Answers(db, policy, target, t, rows) <==> rows == Walk(db, policy, target, t)
  {
    WalkAnswers(db, policy, target, t);
    if Answers(db, policy, target, t, rows) {
      forall i, j | 0 <= i < j < |rows| ensures rows[i].depth > rows[j].depth {
        AnswersDescend(db, policy, target, t, rows, i, j);
      }
      forall q ensures q in rows <==> q in Walk(db, policy, target, t) {}
      SortedIsUnique(rows, Walk(db, policy, target, t));
    }
  }

  lemma HasMember(b: seq<QueryRow>)
    ensures b != [] ==> exists q :: q in b
  {
    if b != [] { assert b[0] in b; }
  }

  /** Two strictly descending sequences of the same rows are equal. */
  lemma {:induction false} SortedIsUnique(a: seq<QueryRow>, b: seq<QueryRow>)
    requires Descending(a) && Descending(b)
    requires forall q :: q in a <==> q in b
    ensures a == b
  {
    if a == [] {
      HasMember(b);
    } else {
      assert a[0] in b && b != [];
      assert b[0] in a;
      assert a[0] == b[0];
      forall q ensures q in a[1..] <==> q in b[1..] {
        if q in a[1..] { assert q in a && q != a[0]; assert q in b; }
        if q in b[1..] { assert q in b && q != b[0]; assert q in a; }
      }
      SortedIsUnique(a[1..], b[1..]);
    }
  }
}
