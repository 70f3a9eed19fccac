/**
 The enterprise tree: its node table, and the closure table that every scope query joins.
 Nodes are only ever inserted, and a node's parent never changes.
 */
module Hierarchy {
  import opened Common

  datatype Kind = Group | LegalEntity | Brand | Region | Area | Branch | Warehouse | Commissary

  /** One row of enterprise_nodes; `position` is its place in insertion order. */
  datatype Node = Node(position: nat, code: Id, kind: Kind, parent: Option<Id>, branch: Option<Id>,
                       warehouse: Option<Id>,
                       legalEntity: Option<Id>, brand: Option<Id>, active: bool)

  /** One row of enterprise_node_closure. */
  datatype Row = Row(ancestor: Id, descendant: Id, depth: nat)

  type Nodes = map<Id, Node>

  // --- The parent tree, as the specification ----------------------------------------------------

  /** A parent column refers to a node inserted earlier. */
  ghost predicate WellFormed(nodes: Nodes) {
    forall id :: id in nodes ==>
      && nodes[id].position < |nodes|
      && (nodes[id].parent.Some?
          ==> nodes[id].parent.value in nodes && nodes[nodes[id].parent.value].position < nodes[id].position)
  }

  function ParentOf(nodes: Nodes, id: Id): Option<Id> {
    if id in nodes then nodes[id].parent else None
  }

  /** The k-th parent of a node; the node itself for k = 0. */
  function KthParent(nodes: Nodes, id: Id, k: nat): Option<Id> {
    if k == 0 then (if id in nodes then Some(id) else None)
    else
      var up := KthParent(nodes, id, k - 1);
      if up.None? then None else ParentOf(nodes, up.value)
  }

  /** Each parent was inserted strictly earlier, so climbing never returns. */
  lemma {:induction false} KthParentIsEarlier(nodes: Nodes, id: Id, k: nat)
    requires WellFormed(nodes) && KthParent(nodes, id, k).Some?
    ensures var a := KthParent(nodes, id, k).value;
            id in nodes && a in nodes && nodes[a].position + k <= nodes[id].position
  {
    if k > 0 { KthParentIsEarlier(nodes, id, k - 1); }
  }

  /** Climbing j then k is climbing j + k. */
  lemma {:induction false} KthParentAdds(nodes: Nodes, id: Id, j: nat, k: nat)
    requires WellFormed(nodes) && KthParent(nodes, id, j).Some?
    ensures KthParent(nodes, id, j + k) == KthParent(nodes, KthParent(nodes, id, j).value, k)
  {
    if k > 0 {
      KthParentAdds(nodes, id, j, k - 1);
    } else {
      KthParentIsEarlier(nodes, id, j);
    }
  }

  /** Distance from the root. */
  function Depth(nodes: Nodes, id: Id): nat
    requires WellFormed(nodes) && id in nodes
    decreases nodes[id].position
  {
    var p := ParentOf(nodes, id);
    if p.None? then 0 else 1 + Depth(nodes, p.value)
  }

  /** The nodes from the root down to `id`. */
  function Path(nodes: Nodes, id: Id): seq<Id>
    requires WellFormed(nodes) && id in nodes
    decreases nodes[id].position
  {
    var p := ParentOf(nodes, id);
    if p.None? then [id] else Path(nodes, p.value) + [id]
  }

  /** The path lists the parents in climbing order: entry `Depth - k` is the k-th parent, and there
      is no further one. */
  lemma {:induction false} PathListsParents(nodes: Nodes, id: Id, k: nat)
    requires WellFormed(nodes) && id in nodes
    ensures |Path(nodes, id)| == Depth(nodes, id) + 1
    ensures KthParent(nodes, id, k) == if k <= Depth(nodes, id) then Some(Path(nodes, id)[Depth(nodes, id) - k])
                                       else None
    decreases nodes[id].position
  {
    var p := ParentOf(nodes, id);
    if p.Some? {
      PathListsParents(nodes, p.value, if k > 0 then k - 1 else 0);
      if k > 0 {
        assert KthParent(nodes, id, 1) == p by { assert KthParent(nodes, id, 0) == Some(id); }
        KthParentAdds(nodes, id, 1, k - 1);
      }
    } else if k > 0 {
      assert KthParent(nodes, id, 0) == Some(id);
      assert KthParent(nodes, id, 1) == None;
      NoParentAbove(nodes, id, 1, k);
    }
  }

  lemma {:induction false} NoParentAbove(nodes: Nodes, id: Id, j: nat, k: nat)
    requires KthParent(nodes, id, j).None? && j <= k
    ensures KthParent(nodes, id, k).None?
  {
    if j < k { NoParentAbove(nodes, id, j, k - 1); }
  }

  /** The tree is acyclic: a node is its own k-th parent only for k = 0. */
  lemma Acyclic(nodes: Nodes, id: Id, k: nat)
    requires WellFormed(nodes) && KthParent(nodes, id, k) == Some(id)
    ensures k == 0
  {
    KthParentIsEarlier(nodes, id, k);
  }

  // --- The closure table --------------------------------------------------------------------------

  /** Row (a, d, k) is present exactly when a is the k-th parent of d. */
  ghost predicate ClosureIs(nodes: Nodes, closure: set<Row>) {
    forall r: Row :: r in closure <==> KthParent(nodes, r.descendant, r.depth) == Some(r.ancestor)
  }

  /** The closure rows one insert adds: the node itself, and its parent's rows one deeper. */
  function Closed(closure: set<Row>, id: Id, parent: Option<Id>): set<Row> {
    var own := closure + {Row(id, id, 0)};
    if parent.None? then own
    else own + set r | r in closure && r.descendant == parent.value :: Row(r.ancestor, id, r.depth + 1)
  }

  predicate Insertable(nodes: Nodes, id: Id, n: Node) {
    id !in nodes && n.position == |nodes| && (n.parent.Some? ==> n.parent.value in nodes)
  }

  /** Inserting a node leaves every older node's ancestry alone. */
  lemma {:induction false} InsertKeepsParents(nodes: Nodes, added: Id, n: Node, id: Id, k: nat)
    requires WellFormed(nodes) && Insertable(nodes, added, n) && id in nodes
    ensures KthParent(nodes[added := n], id, k) == KthParent(nodes, id, k)
  {
    if k > 0 {
      InsertKeepsParents(nodes, added, n, id, k - 1);
      if KthParent(nodes, id, k - 1).Some? { KthParentIsEarlier(nodes, id, k - 1); }
    }
  }

  /** A new node's parents are itself, then its parent's. */
  lemma {:induction false} NewNodesParents(nodes: Nodes, id: Id, n: Node, k: nat)
    requires WellFormed(nodes) && Insertable(nodes, id, n)
    ensures KthParent(nodes[id := n], id, k)
            == if k == 0 then Some(id)
               else if n.parent.None? then None
               else KthParent(nodes, n.parent.value, k - 1)
  {
    if k > 0 {
      NewNodesParents(nodes, id, n, k - 1);
      if k > 1 && n.parent.Some? && KthParent(nodes, n.parent.value, k - 2).Some? {
        KthParentIsEarlier(nodes, n.parent.value, k - 2);
      }
    }
  }

  lemma InsertKeepsTree(nodes: Nodes, id: Id, n: Node)
    requires WellFormed(nodes) && Insertable(nodes, id, n)
    ensures WellFormed(nodes[id := n])
  {
    assert nodes[id := n].Keys == nodes.Keys + {id};
    assert |nodes[id := n]| == |nodes.Keys + {id}| == |nodes| + 1;
  }

  /** Closure equals reachability after one more insert. */
  lemma InsertKeepsClosure(nodes: Nodes, closure: set<Row>, id: Id, n: Node)
    requires WellFormed(nodes) && Insertable(nodes, id, n) && ClosureIs(nodes, closure)
    ensures ClosureIs(nodes[id := n], Closed(closure, id, n.parent))
  {
    var after := nodes[id := n];
    forall r: Row
      ensures r in Closed(closure, id, n.parent) <==> KthParent(after, r.descendant, r.depth) == Some(r.ancestor)
    {
      if r.descendant == id {
        NewNodesParents(nodes, id, n, r.depth);
        UnknownHasNoParents(nodes, id, r.depth);
        if n.parent.Some? && r.depth > 0 {
          assert Row(r.ancestor, n.parent.value, r.depth - 1) in closure
                 <==> KthParent(nodes, n.parent.value, r.depth - 1) == Some(r.ancestor);
        }
      } else if r.descendant in nodes {
        InsertKeepsParents(nodes, id, n, r.descendant, r.depth);
      } else {
        UnknownHasNoParents(nodes, r.descendant, r.depth);
        UnknownHasNoParents(after, r.descendant, r.depth);
      }
    }
  }

  lemma {:induction false} UnknownHasNoParents(nodes: Nodes, id: Id, k: nat)
    requires id !in nodes
    ensures KthParent(nodes, id, k).None?
  {
    if k > 0 { UnknownHasNoParents(nodes, id, k - 1); }
  }

  /** In any correct closure (a, d) occurs with one depth only. */
  lemma ClosureDepthIsUnique(nodes: Nodes, closure: set<Row>, r: Row, r': Row)
    requires WellFormed(nodes) && ClosureIs(nodes, closure)
    requires r in closure && r' in closure && r.ancestor == r'.ancestor && r.descendant == r'.descendant
    ensures r == r'
  {
    SameAncestorSameDepth(nodes, r.descendant, r.ancestor, r.depth, r'.depth);
  }

  /** The MAX(depth) recorded for a node is its distance from its root, which is the first node of
      its path and has no parent. */
  lemma MaxDepthIsDistance(nodes: Nodes, closure: set<Row>, id: Id)
    requires WellFormed(nodes) && ClosureIs(nodes, closure) && id in nodes
    ensures forall r :: r in closure && r.descendant == id ==> r.depth <= Depth(nodes, id)
    ensures |Path(nodes, id)| > 0 && Row(Path(nodes, id)[0], id, Depth(nodes, id)) in closure
    ensures ParentOf(nodes, Path(nodes, id)[0]).None?
  {
    forall r | r in closure && r.descendant == id
      ensures r.depth <= Depth(nodes, id)
    {
      PathListsParents(nodes, id, r.depth);
    }
    PathListsParents(nodes, id, Depth(nodes, id));
    PathListsParents(nodes, id, Depth(nodes, id) + 1);
    assert KthParent(nodes, id, Depth(nodes, id)) == Some(Path(nodes, id)[0]);
  }

  lemma SameAncestorSameDepth(nodes: Nodes, d: Id, a: Id, j: nat, k: nat)
    requires WellFormed(nodes) && KthParent(nodes, d, j) == Some(a) && KthParent(nodes, d, k) == Some(a)
    ensures j == k
  {
    var lo, hi := Min(j, k), Max(j, k);
    KthParentAdds(nodes, d, lo, hi - lo);
    Acyclic(nodes, a, hi - lo);
  }

  // --- The service ------------------------------------------------------------------------------------

  datatype Error = NotFound | Invalid | InvalidState | Conflict

  /** The tables a node refers to: legal entities and brands with whether they are active, branches
      with their codes, warehouses. */
  datatype Register = Register(legalEntities: map<Id, bool>, brands: map<Id, bool>, branches: map<Id, Id>,
                               warehouses: set<Id>)

  /** A published template fixes or leaves open the brand; `fits` says whether its configuration is valid. */
  datatype Template = Template(published: bool, brand: Option<Id>, fits: bool)

  /** The keys of the node table leave room for this row. */
  predicate Unused(nodes: Nodes, id: Id, n: Node) {
    id !in nodes && forall m :: m in nodes ==> !Clashes(nodes[m], n)
  }

  predicate Clashes(m: Node, n: Node) {
    m.code == n.code || (n.branch.Some? && m.branch == n.branch) || (n.warehouse.Some? && m.warehouse == n.warehouse)
  }

  /** Every id a new node names exists. */
  predicate Refers(t: Register, n: Node) {
    && (n.legalEntity.Some? ==> n.legalEntity.value in t.legalEntities) && (n.brand.Some? ==> n.brand.value in t.brands)
    && (n.branch.Some? ==> n.branch.value in t.branches) && (n.warehouse.Some? ==> n.warehouse.value in t.warehouses)
  }

  /** A node names what its kind requires. */
  predicate NamesItsKind(n: Node) {
    && (n.kind == LegalEntity ==> n.legalEntity.Some?) && (n.kind == Branch ==> n.branch.Some?)
    && (n.kind == Warehouse ==> n.warehouse.Some?)
  }

  /** The template and the tables allow a branch of this entity and brand. */
  predicate MayProvision(t: Register, template: Option<Template>, code: Id, branch: Id, legalEntity: Id, brand: Id) {
    && template.Some? && template.value.published && template.value.fits
    && (template.value.brand.Some? ==> template.value.brand.value == brand)
    && legalEntity in t.legalEntities && t.legalEntities[legalEntity] && brand in t.brands && t.brands[brand]
    && branch !in t.branches && code !in t.branches.Values
  }

  /** What a provisioned branch demands of its parent. */
  predicate MayHold(p: Node, legalEntity: Id, brand: Id) {
    && p.active && p.kind !in {Branch, Warehouse, Commissary}
    && (p.legalEntity.Some? ==> p.legalEntity.value == legalEntity) && (p.brand.Some? ==> p.brand.value == brand)
  }

  /** Node codes, branches and warehouses are unique. */
  ghost predicate Unique(nodes: Nodes) {
    forall m, n :: m in nodes && n in nodes && m != n ==>
      && nodes[m].code != nodes[n].code
      && (nodes[m].branch.Some? ==> nodes[n].branch != nodes[m].branch)
      && (nodes[m].warehouse.Some? ==> nodes[n].warehouse != nodes[m].warehouse)
  }

  /** A row is taken exactly when the table's keys allow it: a new id, and no code, branch or warehouse
      twice. */
  lemma TakenExactlyWhen(nodes: Nodes, id: Id, n: Node)
    requires Unique(nodes) && id !in nodes
    ensures Unused(nodes, id, n) <==> Unique(nodes[id := n])
  {
    var after := nodes[id := n];
    if Unique(after) {
      forall m | m in nodes ensures !Clashes(nodes[m], n) { assert after[m] == nodes[m] && after[id] == n; }
    }
  }

  /** What createNode asks of a request beside its parent: every id it names exists, and a legal entity, a
      branch or a warehouse node names its own. */
  lemma WellNamed(t: Register, n: Node)
    ensures Refers(t, n) && NamesItsKind(n)
            <==> (&& (n.legalEntity.Some? ==> n.legalEntity.value in t.legalEntities)
                  && (n.brand.Some? ==> n.brand.value in t.brands)
                  && (n.branch.Some? ==> n.branch.value in t.branches)
                  && (n.warehouse.Some? ==> n.warehouse.value in t.warehouses)
                  && match n.kind
                     case LegalEntity => n.legalEntity.Some?
                     case Branch => n.branch.Some?
                     case Warehouse => n.warehouse.Some?
                     case _ => true)
  {
  }

  /** What a branch from a template asks for: a published, valid template of no or this brand, an active
      legal entity and brand, a new branch and code, and an active parent that is no branch, warehouse or
      commissary and of no or this entity and brand. */
  lemma ProvisionsExactlyWhen(t: Register, template: Option<Template>, code: Id, branch: Id, legalEntity: Id,
                              brand: Id, p: Node)
    ensures MayProvision(t, template, code, branch, legalEntity, brand) && MayHold(p, legalEntity, brand)
            <==> (&& template.Some? && template.value.published && template.value.fits
                  && (template.value.brand == None || template.value.brand == Some(brand))
                  && legalEntity in t.legalEntities && t.legalEntities[legalEntity] && brand in t.brands
                  && t.brands[brand]
                  && branch !in t.branches && (forall b :: b in t.branches ==> t.branches[b] != code)
                  && p.active && p.kind != Branch && p.kind != Warehouse && p.kind != Commissary
                  && (p.legalEntity == None || p.legalEntity == Some(legalEntity))
                  && (p.brand == None || p.brand == Some(brand)))
  {
  }

  class Service {
    var nodes: Nodes
    var closure: set<Row>
    /** The branch node that each idempotency key of branch_template_assignments stands for. */
    var provisioned: map<Id, Id>

    /** The closure table indexes the parent tree, and used keys lead to branches. */
    ghost predicate Valid()
      reads this
    {
      && WellFormed(nodes) && ClosureIs(nodes, closure) && Unique(nodes)
      && forall k :: k in provisioned ==> provisioned[k] in nodes && nodes[provisioned[k]].kind == Branch
    }

    constructor ()
      ensures Valid() && nodes == map[]
    {
      nodes, closure, provisioned := map[], {}, map[];
      new;
      forall r: Row
        ensures KthParent(nodes, r.descendant, r.depth).None?
      {
        UnknownHasNoParents(nodes, r.descendant, r.depth);
      }
    }

    /** One batch: the node row, its own closure row, and its parent's closure rows one deeper. The
        keys of enterprise_nodes reject a repeated id, code, branch or warehouse. */
    method Insert(id: Id, n: Node) returns (r: Result<Id, Error>)
      requires Valid() && n.position == |nodes| && (n.parent.Some? ==> n.parent.value in nodes)
      modifies this`nodes, this`closure
      ensures Valid()
      ensures r == if Unused(old(nodes), id, n) then Ok(id) else Err(Conflict)
      ensures r.Ok? ==> nodes == old(nodes)[id := n] && closure == Closed(old(closure), id, n.parent)
      ensures r.Err? ==> nodes == old(nodes) && closure == old(closure)
    {
      if !Unused(nodes, id, n) { return Err(Conflict); }
      InsertKeepsTree(nodes, id, n);
      InsertKeepsClosure(nodes, closure, id, n);
      TakenExactlyWhen(nodes, id, n);
      nodes, closure := nodes[id := n], Closed(closure, id, n.parent);
      r := Ok(id);
    }

    /** createNode, for the row `n` the request asks for. */
    method CreateNode(id: Id, n: Node, t: Register) returns (r: Result<Id, Error>)
      requires Valid() && n.position == |nodes|
      modifies this`nodes, this`closure
      ensures Valid()
      ensures r.Ok?
              <==> ((n.parent.Some? ==> n.parent.value in old(nodes)) && Refers(t, n) && NamesItsKind(n)
                    && Unused(old(nodes), id, n))
      ensures r.Ok? ==> nodes == old(nodes)[id := n] && closure == Closed(old(closure), id, n.parent)
      ensures r.Err? ==> nodes == old(nodes) && closure == old(closure)
    {
      if n.parent.Some? && n.parent.value !in nodes { return Err(NotFound); }
      if !Refers(t, n) { return Err(Invalid); }
      if n.kind == LegalEntity && n.legalEntity.None? { return Err(Invalid); }
      if n.kind == Branch && n.branch.None? { return Err(Invalid); }
      if n.kind == Warehouse && n.warehouse.None? { return Err(Invalid); }
      r := Insert(id, n);
    }

    /** provisionBranchFromTemplate: a used key is a replay; else its checks, and its node among the
        rows of the batch. */
    method ProvisionBranch(id: Id, code: Id, branch: Id, parent: Id, legalEntity: Id, brand: Id, key: Id,
                           template: Option<Template>, t: Register)
      returns (r: Result<Id, Error>)
      requires Valid()
      modifies this
      ensures Valid()
      ensures key in old(provisioned) ==>
                r == Ok(old(provisioned)[key])
                && nodes == old(nodes) && closure == old(closure) && provisioned == old(provisioned)
      ensures var n := Node(|old(nodes)|, code, Branch, Some(parent), Some(branch), None, Some(legalEntity),
                            Some(brand), true);
              key !in old(provisioned) ==>
                && (r.Ok? <==> (MayProvision(t, template, code, branch, legalEntity, brand) && parent in old(nodes)
                                && MayHold(old(nodes)[parent], legalEntity, brand) && Unused(old(nodes), id, n)))
                && (r.Ok? ==> r.value == id && nodes == old(nodes)[id := n]
                              && closure == Closed(old(closure), id, Some(parent))
                              && provisioned == old(provisioned)[key := id])
                && (r.Err? ==> nodes == old(nodes) && closure == old(closure) && provisioned == old(provisioned))
    {
      if key in provisioned { return Ok(provisioned[key]); }
      if template.None? { return Err(NotFound); }
      if !template.value.published { return Err(InvalidState); }
      if template.value.brand.Some? && template.value.brand.value != brand { return Err(Invalid); }
      if !template.value.fits { return Err(Invalid); }
      if parent !in nodes { return Err(NotFound); }
      var p := nodes[parent];
      if p.kind in {Branch, Warehouse, Commissary} { return Err(Invalid); }
      if !p.active { return Err(InvalidState); }
      if p.legalEntity.Some? && p.legalEntity.value != legalEntity { return Err(Invalid); }
      if p.brand.Some? && p.brand.value != brand { return Err(Invalid); }
      if legalEntity !in t.legalEntities || !t.legalEntities[legalEntity] { return Err(Invalid); }
      if brand !in t.brands || !t.brands[brand] { return Err(Invalid); }
      if branch in t.branches || code in t.branches.Values { return Err(Conflict); }
      r := Insert(id,
                  Node(|nodes|, code, Branch, Some(parent), Some(branch), None, Some(legalEntity), Some(brand), true));
      if r.Ok? { provisioned := provisioned[key := id]; }
    }
  }
}
