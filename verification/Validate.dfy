/** Checking a snapshot before it is run: parent links, prerequisite cycles, one root. */
module Validate {
  import opened Base
  import opened Graph

  /** What makes a snapshot unusable, as `Run` reports it. */
  datatype Flaw = MissingNode | PrerequisiteCycle | MissingParent | ParentCycle | ManyRoots | NoRoot

  // ---- Prerequisite edges ---------------------------------------------------

  predicate Needs(nodes: Nodes, id: Id, p: Id) {
    id in nodes && p in nodes[id].spec.prerequisites
  }

  predicate PrerequisitesExist(nodes: Nodes) {
    forall id :: id in nodes ==> forall p :: p in nodes[id].spec.prerequisites ==> p in nodes
  }

  /** `path` follows prerequisite edges. */
  ghost predicate Walk(nodes: Nodes, path: seq<Id>) {
    forall i :: 0 <= i < |path| - 1 ==> Needs(nodes, path[i], path[i + 1])
  }

  ghost predicate OnCycle(nodes: Nodes, id: Id) {
    exists path :: |path| >= 2 && path[0] == id && path[|path| - 1] == id && Walk(nodes, path)
  }

  ghost predicate PrerequisitesAcyclic(nodes: Nodes) {
    forall id :: id in nodes ==> !OnCycle(nodes, id)
  }

  /** Every prerequisite of an entry comes before it. */
  predicate Sorted(nodes: Nodes, order: seq<Id>) {
    forall i :: 0 <= i < |order| ==>
      order[i] in nodes && forall p :: p in nodes[order[i]].spec.prerequisites ==> p in order[..i]
  }

  /** In a sorted order without repetition a walk only moves towards the front. */
  lemma {:induction false} WalkDescends(nodes: Nodes, order: seq<Id>, path: seq<Id>, at: nat)
    requires Sorted(nodes, order) && Walk(nodes, path) && |path| >= 1
    requires at < |order| && path[0] == order[at]
    ensures path[|path| - 1] in order[..at + 1]
    ensures |path| >= 2 ==> path[|path| - 1] in order[..at]
    decreases |path|
  {
    if |path| >= 2 {
      assert Needs(nodes, path[0], path[1]);
      var next :| 0 <= next < at && order[next] == path[1];
      forall i | 0 <= i < |path[1..]| - 1 ensures Needs(nodes, path[1..][i], path[1..][i + 1]) {
        assert Needs(nodes, path[i + 1], path[i + 1 + 1]);
      }
      WalkDescends(nodes, order, path[1..], next);
      assert order[..next + 1] <= order[..at];
    }
  }

  predicate Distinct(order: seq<Id>) {
    forall i, j :: 0 <= i < j < |order| ==> order[i] != order[j]
  }

  lemma SortedIsAcyclic(nodes: Nodes, order: seq<Id>, id: Id)
    requires Sorted(nodes, order) && Distinct(order) && id in order
    ensures !OnCycle(nodes, id)
  {
    if OnCycle(nodes, id) {
      var path :| |path| >= 2 && path[0] == id && path[|path| - 1] == id && Walk(nodes, path);
      var at :| 0 <= at < |order| && order[at] == id;
      WalkDescends(nodes, order, path, at);
    }
  }

  // ---- The visiting / visited search ----------------------------------------

  /** The search is inside `path`, has finished `order`, and everything finished is sorted. */
  ghost predicate Searching(nodes: Nodes, visiting: set<Id>, visited: set<Id>, path: seq<Id>, order: seq<Id>) {
    && Walk(nodes, path) && Sorted(nodes, order) && Distinct(order)
    && (forall x :: x in visiting <==> x in path)
    && (forall x :: x in visited <==> x in order)
    && visiting <= nodes.Keys && visiting !! visited
  }

  lemma RepeatIsCycle(nodes: Nodes, path: seq<Id>, id: Id)
    requires Walk(nodes, path + [id]) && id in path
    ensures OnCycle(nodes, id) && id in nodes
  {
    var i :| 0 <= i < |path| && path[i] == id;
    var cycle := path[i..] + [id];
    forall k | 0 <= k < |cycle| - 1 ensures Needs(nodes, cycle[k], cycle[k + 1]) {
      assert Needs(nodes, (path + [id])[i + k], (path + [id])[i + k + 1]);
    }
    assert Walk(nodes, cycle);
    assert Needs(nodes, cycle[0], cycle[0 + 1]);
  }

  /** The recursive `visit`: on success `id` is finished as well and nothing else is being
      visited; otherwise the graph has a missing prerequisite or a cycle. `path` leads from
      the first call to the caller and `order` lists what is finished. */
  method Visit(nodes: Nodes, id: Id, visiting: set<Id>, visited: set<Id>, ghost path: seq<Id>, ghost order: seq<Id>)
      returns (flaw: Option<Flaw>, visited': set<Id>, ghost order': seq<Id>)
    requires Searching(nodes, visiting, visited, path, order) && Walk(nodes, path + [id])
    requires path == [] ==> id in nodes
    ensures flaw.None? ==> Searching(nodes, visiting, visited', path, order') && id in visited' && visited <= visited'
    ensures flaw.Some? ==> flaw.value == MissingNode || flaw.value == PrerequisiteCycle
    ensures flaw == Some(MissingNode) ==> !PrerequisitesExist(nodes)
    ensures flaw == Some(PrerequisiteCycle) ==> !PrerequisitesAcyclic(nodes)
    decreases nodes.Keys - visiting
  {
    flaw, visited', order' := None, visited, order;
    if id in visiting {
      RepeatIsCycle(nodes, path, id);
      return Some(PrerequisiteCycle), visited, order;
    }
    if id in visited { return; }
    if id !in nodes {
      assert Needs(nodes, (path + [id])[|path| - 1], (path + [id])[|path| - 1 + 1]);
      return Some(MissingNode), visited, order;
    }
    var prerequisites := nodes[id].spec.prerequisites;
    var i := 0;
    while i < |prerequisites|
      invariant 0 <= i <= |prerequisites| && flaw.None?
      invariant Searching(nodes, visiting + {id}, visited', path + [id], order')
      invariant visited <= visited'
      invariant forall k :: 0 <= k < i ==> prerequisites[k] in visited'
    {
      EdgeExtends(nodes, path + [id], prerequisites[i]);
      flaw, visited', order' := Visit(nodes, prerequisites[i], visiting + {id}, visited', path + [id], order');
      if flaw.Some? { return; }
      i := i + 1;
    }
    FinishedExtends(nodes, visiting, visited', path, order', id);
    visited', order' := visited' + {id}, order' + [id];
  }

  lemma EdgeExtends(nodes: Nodes, path: seq<Id>, p: Id)
    requires Walk(nodes, path) && |path| >= 1 && Needs(nodes, path[|path| - 1], p)
    ensures Walk(nodes, path + [p])
  {
    forall i | 0 <= i < |path + [p]| - 1 ensures Needs(nodes, (path + [p])[i], (path + [p])[i + 1]) {
      if i < |path| - 1 { assert Needs(nodes, path[i], path[i + 1]); }
    }
  }

  lemma FinishedExtends(nodes: Nodes, visiting: set<Id>, visited: set<Id>, path: seq<Id>, order: seq<Id>, id: Id)
    requires Searching(nodes, visiting + {id}, visited, path + [id], order) && id in nodes && id !in visiting
    requires forall p :: p in nodes[id].spec.prerequisites ==> p in visited
    requires forall x :: x in visiting <==> x in path
    ensures Searching(nodes, visiting, visited + {id}, path, order + [id])
  {
    forall i | 0 <= i < |path| - 1 ensures Needs(nodes, path[i], path[i + 1]) {
      assert Needs(nodes, (path + [id])[i], (path + [id])[i + 1]);
    }
    var after := order + [id];
    forall i | 0 <= i < |after|
      ensures after[i] in nodes && forall p :: p in nodes[after[i]].spec.prerequisites ==> p in after[..i]
    {
      assert after[..i] == order[..i];
    }
  }

  // ---- The walk along the parents -------------------------------------------

  /** `trail` climbs from its first node along parent links. */
  ghost predicate Climb(nodes: Nodes, trail: seq<Id>) {
    && |trail| >= 1
    && (forall i :: 0 <= i < |trail| ==> trail[i] in nodes)
    && forall i :: 0 <= i < |trail| - 1 ==> ChildOf(nodes, trail[i], trail[i + 1])
  }

  lemma {:induction false} ClimbIsBelow(nodes: Nodes, trail: seq<Id>)
    requires Climb(nodes, trail) && |trail| >= 2
    ensures Below(nodes, trail[|trail| - 1], trail[0])
    decreases |trail|
  {
    var n := |trail|;
    assert ChildOf(nodes, trail[0], trail[0 + 1]);
    if n == 2 {
      ChildIsBelow(nodes, trail[1], trail[0]);
    } else {
      forall i | 0 <= i < n - 2 ensures ChildOf(nodes, trail[1..][i], trail[1..][i + 1]) {
        assert ChildOf(nodes, trail[i + 1], trail[i + 1 + 1]);
      }
      ClimbIsBelow(nodes, trail[1..]);
      BelowExtends(nodes, trail[n - 1], trail[1], trail[0]);
    }
  }

  /** The parent of a node on a parent cycle is on a cycle as well. */
  lemma CycleClimbs(nodes: Nodes, id: Id)
    requires Below(nodes, id, id)
    ensures id in nodes && nodes[id].spec.parent.Some? && Below(nodes, nodes[id].spec.parent.value, nodes[id].spec.parent.value)
  {
    var path :| Chain(nodes, id, id, path);
    var n := |path|;
    assert ChildOf(nodes, path[n - 2 + 1], path[n - 2]);
    var parent := path[n - 2];
    var around := [parent] + path[..n - 1];
    forall i | 0 <= i < |around| - 1 ensures ChildOf(nodes, around[i + 1], around[i]) {
      if i > 0 { assert ChildOf(nodes, path[i - 1 + 1], path[i - 1]); }
    }
    assert Chain(nodes, parent, parent, around);
  }

  /** A climb that starts on a cycle never ends at a root. */
  lemma {:induction false} ClimbStaysOnCycle(nodes: Nodes, trail: seq<Id>, i: nat)
    requires Climb(nodes, trail) && i < |trail| && Below(nodes, trail[0], trail[0])
    ensures Below(nodes, trail[i], trail[i])
  {
    if i > 0 {
      ClimbStaysOnCycle(nodes, trail, i - 1);
      CycleClimbs(nodes, trail[i - 1]);
      assert ChildOf(nodes, trail[i - 1], trail[i - 1 + 1]);
    }
  }

  /** The parent walk from one node: it succeeds exactly when the walk ends at a root, and
      then the node is on no parent cycle. */
  method WalkParents(nodes: Nodes, id: Id) returns (flaw: Option<Flaw>)
    requires id in nodes
    ensures flaw.None? ==> !Below(nodes, id, id)
    ensures flaw.None? && nodes[id].spec.parent.Some? ==> nodes[id].spec.parent.value in nodes
    ensures flaw.Some? ==> flaw.value == MissingParent || flaw.value == ParentCycle
    ensures flaw == Some(MissingParent) ==> !ParentsExist(nodes)
    ensures flaw == Some(ParentCycle) ==> !ParentsAcyclic(nodes)
  {
    var current, ancestors: set<Id> := id, {};
    ghost var trail := [id];
    while nodes[current].spec.parent.Some?
      invariant Climb(nodes, trail) && trail[0] == id && trail[|trail| - 1] == current
      invariant forall x :: x in ancestors <==> x in trail[..|trail| - 1]
      decreases nodes.Keys - ancestors
    {
      var parent := nodes[current].spec.parent.value;
      if parent !in nodes { return Some(MissingParent); }
      if current in ancestors {
        ghost var i :| 0 <= i < |trail| - 1 && trail[i] == current;
        assert Climb(nodes, trail[i..]) by {
          forall k | 0 <= k < |trail[i..]| - 1 ensures ChildOf(nodes, trail[i..][k], trail[i..][k + 1]) {
            assert ChildOf(nodes, trail[i + k], trail[i + k + 1]);
          }
        }
        ClimbIsBelow(nodes, trail[i..]);
        return Some(ParentCycle);
      }
      ancestors := ancestors + {current};
      assert ChildOf(nodes, current, parent);
      trail := trail + [parent];
      current := parent;
    }
    if Below(nodes, id, id) {
      ClimbStaysOnCycle(nodes, trail, |trail| - 1);
      CycleClimbs(nodes, current);
    }
    if |trail| > 1 { assert ChildOf(nodes, trail[0], trail[0 + 1]); }
    return None;
  }

  // ---- The whole check ------------------------------------------------------

  ghost predicate WellFormed(nodes: Nodes) {
    ParentsExist(nodes) && ParentsAcyclic(nodes) && PrerequisitesExist(nodes) && PrerequisitesAcyclic(nodes)
  }

  /** `validateLocked`: sound and complete, whatever order the nodes are looked at in. */
  method ValidateLocked(nodes: Nodes) returns (flaw: Option<Flaw>)
    ensures flaw.None? <==> WellFormed(nodes)
    ensures flaw == Some(MissingParent) ==> !ParentsExist(nodes)
    ensures flaw == Some(ParentCycle) ==> !ParentsAcyclic(nodes)
    ensures flaw == Some(MissingNode) ==> !PrerequisitesExist(nodes)
    ensures flaw == Some(PrerequisiteCycle) ==> !PrerequisitesAcyclic(nodes)
  {
    var rest, visited: set<Id> := nodes.Keys, {};
    ghost var order := [];
    flaw := None;
    while rest != {}
      invariant rest <= nodes.Keys && flaw.None?
      invariant Searching(nodes, {}, visited, [], order)
      invariant forall x :: x in nodes && x !in rest ==>
                  !Below(nodes, x, x) && x in visited
                  && (nodes[x].spec.parent.Some? ==> nodes[x].spec.parent.value in nodes)
    {
      var id :| id in rest;
      rest := rest - {id};
      flaw := WalkParents(nodes, id);
      if flaw.Some? { return; }
      flaw, visited, order := Visit(nodes, id, {}, visited, [], order);
      if flaw.Some? { return; }
    }
    FinishedIsWellFormed(nodes, visited, order);
  }

  lemma FinishedIsWellFormed(nodes: Nodes, visited: set<Id>, order: seq<Id>)
    requires Searching(nodes, {}, visited, [], order)
    requires forall x :: x in nodes ==> !Below(nodes, x, x) && x in visited
    requires ParentsExist(nodes)
    ensures WellFormed(nodes)
  {
    forall id | id in nodes
      ensures !OnCycle(nodes, id) && forall p :: p in nodes[id].spec.prerequisites ==> p in nodes
    {
      SortedIsAcyclic(nodes, order, id);
      var i :| 0 <= i < |order| && order[i] == id;
      forall p | p in nodes[id].spec.prerequisites ensures p in nodes {
        assert p in order[..i];
      }
    }
  }

  predicate IsRoot(nodes: Nodes, id: Id) {
    id in nodes && nodes[id].spec.parent.None?
  }

  /** The scan for the root of a non-empty graph. No stored node has the nil identifier. */
  method FindRoot(nodes: Nodes) returns (flaw: Option<Flaw>, root: Id)
    requires NIL !in nodes
    ensures flaw.None? && nodes != map[] ==> IsRoot(nodes, root) && forall id :: IsRoot(nodes, id) ==> id == root
    ensures flaw.None? && nodes == map[] ==> root == NIL
    ensures flaw.Some? ==> flaw.value == ManyRoots || flaw.value == NoRoot
    ensures flaw == Some(ManyRoots) ==> exists a, b :: IsRoot(nodes, a) && IsRoot(nodes, b) && a != b
    ensures flaw == Some(NoRoot) ==> nodes != map[] && forall id :: !IsRoot(nodes, id)
  {
    root := NIL;
    var rest := nodes.Keys;
    while rest != {}
      invariant rest <= nodes.Keys
      invariant root != NIL ==> IsRoot(nodes, root) && root !in rest
      invariant forall id :: IsRoot(nodes, id) && id !in rest ==> id == root
    {
      var id :| id in rest;
      rest := rest - {id};
      if nodes[id].spec.parent.None? {
        if root != NIL {
          assert IsRoot(nodes, id) && IsRoot(nodes, root) && id != root;
          return Some(ManyRoots), NIL;
        }
        root := id;
      }
    }
    assert |nodes| == 0 <==> nodes == map[];
    if |nodes| > 0 && root == NIL {
      assert forall id :: !IsRoot(nodes, id);
      return Some(NoRoot), NIL;
    }
    return None, root;
  }

  /** What `Run` accepts: references exist, no prerequisite cycle, and one tree of parents. */
  ghost predicate Acceptable(nodes: Nodes) {
    PrerequisitesExist(nodes) && PrerequisitesAcyclic(nodes) && exists root :: Tree(nodes, root)
  }

  /** The checks `Run` makes before it starts: a non-empty snapshot passes exactly when it is
      acceptable, and then the root found is the root of its tree. */
  method CheckSnapshot(nodes: Nodes) returns (flaw: Option<Flaw>, root: Id)
    requires NIL !in nodes && nodes != map[]
    ensures flaw.None? <==> Acceptable(nodes)
    ensures flaw.None? ==> Tree(nodes, root)
  {
    root := NIL;
    flaw := ValidateLocked(nodes);
    if flaw.Some? { return; }
    flaw, root := FindRoot(nodes);
    if flaw.None? {
      assert forall id :: id in nodes && id != root ==> !IsRoot(nodes, id);
      assert Tree(nodes, root);
    } else {
      NoTree(nodes);
    }
  }

  lemma TreeHasOneRoot(nodes: Nodes, root: Id)
    requires Tree(nodes, root)
    ensures IsRoot(nodes, root) && forall id :: IsRoot(nodes, id) ==> id == root
  {
  }

  /** A graph with no root or more than one is no tree. */
  lemma NoTree(nodes: Nodes)
    requires (exists a, b :: IsRoot(nodes, a) && IsRoot(nodes, b) && a != b) || (forall id :: !IsRoot(nodes, id))
    ensures forall top :: !Tree(nodes, top)
  {
    forall top ensures !Tree(nodes, top) {
      if Tree(nodes, top) { TreeHasOneRoot(nodes, top); }
    }
  }
}
