/** The task graph of one run: nodes, the parent tree and prerequisite edges. */
module Graph {
  import opened Base

  datatype State = Pending | Ready | Running | Waiting | Done | Failed | Canceled {
    predicate Terminal() {
      Done? || Failed? || Canceled?
    }
  }

  datatype WaitReason = NoReason | ForImage | ForChildren | ForRetry

  /** What a node is created with and keeps. */
  datatype Spec = Spec(
    parent: Option<Id>,
    maxAttempts: int,
    imageKey: Bytes,
    cacheKey: Bytes,
    prerequisites: seq<Id>)

  /** What the last finished attempt, or whatever ended the node, left behind. */
  datatype Report = Report(output: Bytes, error: string, cacheHit: bool)

  datatype Node = Node(
    spec: Spec,
    state: State,
    waitingOn: WaitReason,
    attempt: int,
    failures: int,
    nextAttemptAt: Time,
    report: Report)
  {
    predicate Terminal() {
      state.Terminal()
    }

    /** The attempt limit: a node may always run once. */
    function Limit(): int {
      Max(spec.maxAttempts, 1)
    }

    /** Not started, or between attempts: no attempt of the node is in progress. */
    predicate Idle() {
      state.Pending? || state.Ready? || (state.Waiting? && waitingOn == ForImage)
    }

    /** An attempt is in progress, running or waiting for children. */
    predicate InAttempt() {
      state.Running? || (state.Waiting? && waitingOn == ForChildren)
    }

    /** What a reload from the database produces: pending or terminal. */
    predicate Restored() {
      state.Pending? || Terminal()
    }
  }

  type Nodes = map<Id, Node>

  predicate ChildOf(nodes: Nodes, child: Id, parent: Id) {
    child in nodes && nodes[child].spec.parent == Some(parent)
  }

  // ---- Descendants ----------------------------------------------------------

  /** `path` leads from `top` down to `bottom`, one parent link at a time. */
  ghost predicate Chain(nodes: Nodes, top: Id, bottom: Id, path: seq<Id>) {
    && |path| >= 2
    && path[0] == top
    && path[|path| - 1] == bottom
    && forall i :: 0 <= i < |path| - 1 ==> ChildOf(nodes, path[i + 1], path[i])
  }

  /** `bottom` is a proper descendant of `top`. */
  ghost predicate Below(nodes: Nodes, top: Id, bottom: Id) {
    exists path :: Chain(nodes, top, bottom, path)
  }

  ghost function Descendants(nodes: Nodes, top: Id): set<Id> {
    set id | id in nodes && Below(nodes, top, id)
  }

  lemma ChildIsBelow(nodes: Nodes, top: Id, child: Id)
    requires ChildOf(nodes, child, top)
    ensures Below(nodes, top, child)
  {
    assert Chain(nodes, top, child, [top, child]);
  }

  lemma BelowExtends(nodes: Nodes, top: Id, middle: Id, child: Id)
    requires Below(nodes, top, middle) && ChildOf(nodes, child, middle)
    ensures Below(nodes, top, child)
  {
    var path :| Chain(nodes, top, middle, path);
    assert Chain(nodes, top, child, path + [child]);
  }

  /** Everything one link below `top` or one of its descendants is a descendant. */
  lemma DescendantsClosed(nodes: Nodes, top: Id)
    ensures forall p, c :: (p == top || p in Descendants(nodes, top)) && ChildOf(nodes, c, p)
              ==> c in Descendants(nodes, top)
  {
    forall p, c | (p == top || p in Descendants(nodes, top)) && ChildOf(nodes, c, p)
      ensures c in Descendants(nodes, top)
    {
      if p == top { ChildIsBelow(nodes, top, c); } else { BelowExtends(nodes, top, p, c); }
    }
  }

  /** Descendants are the least set closed under "child of top or of a member". */
  lemma DescendantsLeast(nodes: Nodes, top: Id, s: set<Id>)
    requires forall p, c :: (p == top || p in s) && ChildOf(nodes, c, p) ==> c in s
    ensures Descendants(nodes, top) <= s
  {
    forall id | id in Descendants(nodes, top) ensures id in s {
      var path :| Chain(nodes, top, id, path);
      ChainStaysIn(nodes, top, id, path, s);
    }
  }

  lemma {:induction false} ChainStaysIn(nodes: Nodes, top: Id, bottom: Id, path: seq<Id>, s: set<Id>)
    requires Chain(nodes, top, bottom, path)
    requires forall p, c :: (p == top || p in s) && ChildOf(nodes, c, p) ==> c in s
    ensures bottom in s
    decreases |path|
  {
    var n := |path|;
    assert ChildOf(nodes, path[n - 2 + 1], path[n - 2]);
    if n > 2 {
      assert Chain(nodes, top, path[n - 2], path[..n - 1]);
      ChainStaysIn(nodes, top, path[n - 2], path[..n - 1], s);
    }
  }

  /** Descendants depend on the parent links only. */
  predicate SameLinks(a: Nodes, b: Nodes) {
    a.Keys == b.Keys && forall id :: id in a ==> a[id].spec.parent == b[id].spec.parent
  }

  lemma SameLinksSameDescendants(a: Nodes, b: Nodes, top: Id)
    requires SameLinks(a, b)
    ensures Descendants(a, top) == Descendants(b, top)
  {
    DescendantsClosed(a, top);
    DescendantsClosed(b, top);
    assert forall p, c :: ChildOf(a, c, p) <==> ChildOf(b, c, p);
    DescendantsLeast(a, top, Descendants(b, top));
    DescendantsLeast(b, top, Descendants(a, top));
  }

  // ---- The parent tree ------------------------------------------------------

  /** One root, every other node under an existing parent, no parent cycle. */
  ghost predicate Tree(nodes: Nodes, root: Id) {
    && root in nodes
    && nodes[root].spec.parent == None
    && (forall id :: id in nodes && id != root ==> nodes[id].spec.parent.Some?)
    && ParentsExist(nodes)
    && ParentsAcyclic(nodes)
  }

  predicate ParentsExist(nodes: Nodes) {
    forall id :: id in nodes && nodes[id].spec.parent.Some? ==> nodes[id].spec.parent.value in nodes
  }

  ghost predicate ParentsAcyclic(nodes: Nodes) {
    forall id :: id in nodes ==> !Below(nodes, id, id)
  }

  /** A parent cycle after adding a fresh leaf was there before: the leaf has no child. */
  lemma LeafCloses(nodes: Nodes, id: Id, node: Node, x: Id, path: seq<Id>)
    requires ParentsExist(nodes) && id !in nodes && node.spec.parent != Some(id)
    requires Chain(nodes[id := node], x, x, path)
    ensures x in nodes && Below(nodes, x, x)
  {
    var after := nodes[id := node];
    forall i | 0 <= i < |path| - 1 ensures path[i] != id {
      assert ChildOf(after, path[i + 1], path[i]);
    }
    forall i | 0 <= i < |path| - 1 ensures ChildOf(nodes, path[i + 1], path[i]) {
      assert ChildOf(after, path[i + 1], path[i]);
      assert path[i + 1] != id;
    }
    assert ChildOf(nodes, path[|path| - 2 + 1], path[|path| - 2]);
    assert Chain(nodes, x, x, path);
  }

  /** Adding a fresh leaf under an existing node keeps the tree. */
  lemma LeafKeepsTree(nodes: Nodes, root: Id, id: Id, node: Node)
    requires Tree(nodes, root)
    requires id !in nodes && node.spec.parent.Some? && node.spec.parent.value in nodes
    ensures Tree(nodes[id := node], root)
  {
    var after := nodes[id := node];
    forall x | x in after ensures !Below(after, x, x) {
      if Below(after, x, x) {
        var path :| Chain(after, x, x, path);
        LeafCloses(nodes, id, node, x, path);
      }
    }
  }

  lemma SameLinksSameTree(a: Nodes, b: Nodes, root: Id)
    requires SameLinks(a, b) && Tree(a, root)
    ensures Tree(b, root)
  {
    forall id | id in b ensures !Below(b, id, id) {
      SameLinksSameDescendants(a, b, id);
      assert id !in Descendants(a, id);
    }
  }

  // ---- Structured closure ---------------------------------------------------

  predicate ParentTerminal(nodes: Nodes, child: Id)
    requires child in nodes
  {
    && nodes[child].spec.parent.Some?
    && nodes[child].spec.parent.value in nodes
    && nodes[nodes[child].spec.parent.value].Terminal()
  }

  /** A terminal parent has only terminal children. */
  predicate ChildrenClosed(nodes: Nodes) {
    forall c :: c in nodes && ParentTerminal(nodes, c) ==> nodes[c].Terminal()
  }

  /** A terminal node has no live descendant. */
  ghost predicate SubtreesClosed(nodes: Nodes) {
    forall p, c :: p in nodes && nodes[p].Terminal() && Below(nodes, p, c) && c in nodes ==> nodes[c].Terminal()
  }

  /** Closure of every subtree is closure of every single link. */
  lemma ClosureIsLocal(nodes: Nodes)
    ensures ChildrenClosed(nodes) <==> SubtreesClosed(nodes)
  {
    if SubtreesClosed(nodes) {
      forall c | c in nodes && ParentTerminal(nodes, c)
        ensures nodes[c].Terminal()
      {
        ChildIsBelow(nodes, nodes[c].spec.parent.value, c);
      }
    }
    if ChildrenClosed(nodes) {
      forall p, c | p in nodes && nodes[p].Terminal() && Below(nodes, p, c) && c in nodes
        ensures nodes[c].Terminal()
      {
        DescendantsLeast(nodes, p, set id | id in nodes && nodes[id].Terminal());
        assert c in Descendants(nodes, p);
      }
    }
  }

  /** A terminal node with a live descendant. */
  ghost predicate Open(nodes: Nodes, p: Id) {
    p in nodes && nodes[p].Terminal() && !ClosedBelow(nodes, p)
  }

  /** Everything below the node is terminal. */
  ghost predicate ClosedBelow(nodes: Nodes, p: Id) {
    forall c :: c in Descendants(nodes, p) ==> nodes[c].Terminal()
  }

  lemma ClosedIsNoneOpen(nodes: Nodes)
    ensures SubtreesClosed(nodes) <==> forall p :: !Open(nodes, p)
  {
    if forall p :: !Open(nodes, p) {
      forall p, c | p in nodes && nodes[p].Terminal() && Below(nodes, p, c) && c in nodes
        ensures nodes[c].Terminal()
      {
        assert !Open(nodes, p) && c in Descendants(nodes, p);
      }
    }
  }

  /** What lies below a descendant lies below its ancestor. */
  lemma DescendantsNest(nodes: Nodes, top: Id, p: Id)
    requires p in Descendants(nodes, top)
    ensures Descendants(nodes, p) <= Descendants(nodes, top)
  {
    DescendantsClosed(nodes, top);
    DescendantsLeast(nodes, p, Descendants(nodes, top));
  }

  /** A node with a descendant has a child. */
  lemma FirstChild(nodes: Nodes, p: Id, c: Id) returns (child: Id)
    requires c in Descendants(nodes, p)
    ensures ChildOf(nodes, child, p)
  {
    var path :| Chain(nodes, p, c, path);
    child := path[0 + 1];
  }

  // ---- Prerequisites --------------------------------------------------------

  predicate AllDone(nodes: Nodes, prerequisites: seq<Id>) {
    forall p :: p in prerequisites ==> p in nodes && nodes[p].state.Done?
  }

  /** A prerequisite that can no longer be met: missing, failed or canceled. */
  predicate Lost(nodes: Nodes, p: Id) {
    p !in nodes || (nodes[p].Terminal() && !nodes[p].state.Done?)
  }

  /** How many entries of the prerequisites of `id` are lost. One listed twice counts twice; the
      node itself, live when its list is looked at, is lost behind an entry that has failed it. */
  function LostEntries(nodes: Nodes, id: Id, prerequisites: seq<Id>): nat {
    if prerequisites == [] then 0
    else
      var n := |prerequisites| - 1;
      var before := LostEntries(nodes, id, prerequisites[..n]);
      before + (if LostHere(nodes, id, prerequisites[n], before) then 1 else 0)
  }

  predicate LostHere(nodes: Nodes, id: Id, p: Id, before: nat) {
    if p == id then before > 0 else Lost(nodes, p)
  }

  lemma {:induction false} PrefixHasFewer(nodes: Nodes, id: Id, prerequisites: seq<Id>, i: nat)
    requires i <= |prerequisites|
    ensures LostEntries(nodes, id, prerequisites[..i]) <= LostEntries(nodes, id, prerequisites)
    decreases |prerequisites|
  {
    var n := |prerequisites| - 1;
    if i <= n {
      PrefixHasFewer(nodes, id, prerequisites[..n], i);
      assert prerequisites[..n][..i] == prerequisites[..i];
    } else {
      assert prerequisites[..i] == prerequisites;
    }
  }

  /** Lost entries are counted alike in graphs that agree on which other nodes are lost. */
  lemma {:induction false} SameLostEntries(a: Nodes, b: Nodes, id: Id, prerequisites: seq<Id>)
    requires forall p :: p in prerequisites && p != id ==> (Lost(a, p) <==> Lost(b, p))
    ensures LostEntries(a, id, prerequisites) == LostEntries(b, id, prerequisites)
    decreases |prerequisites|
  {
    if prerequisites != [] { SameLostEntries(a, b, id, prerequisites[..|prerequisites| - 1]); }
  }

  /** Failing a node does not change what is lost in its own list. */
  lemma FailedEntries(before: Nodes, after: Nodes, id: Id, prerequisites: seq<Id>)
    requires id in after && after == before[id := after[id]]
    ensures LostEntries(before, id, prerequisites) == LostEntries(after, id, prerequisites)
  {
    SameLostEntries(before, after, id, prerequisites);
  }

  lemma {:induction false} NothingLost(nodes: Nodes, id: Id, prerequisites: seq<Id>)
    ensures LostEntries(nodes, id, prerequisites) == 0 <==> forall p :: p in prerequisites && p != id ==> !Lost(nodes, p)
    decreases |prerequisites|
  {
    if prerequisites != [] {
      var n := |prerequisites| - 1;
      NothingLost(nodes, id, prerequisites[..n]);
      assert prerequisites == prerequisites[..n] + [prerequisites[n]];
    }
  }

  /** Waiting for a live prerequisite and none is lost. */
  predicate Blocked(nodes: Nodes, id: Id)
    requires id in nodes
  {
    && !AllDone(nodes, nodes[id].spec.prerequisites)
    && forall p :: p in nodes[id].spec.prerequisites ==> !Lost(nodes, p)
  }

  // ---- Commits --------------------------------------------------------------

  /** What one committed transition may do to a node. Identity and configuration are
      kept, a terminal node is final, and the attempt number moves only when a ready
      node starts, by exactly one. */
  predicate LegalCommit(old_: Node, next: Node) {
    && next.spec == old_.spec
    && !old_.Terminal()
    && next.attempt == (if old_.state.Ready? && next.state.Running? then old_.attempt + 1 else old_.attempt)
    && old_.failures <= next.failures <= old_.failures + 1
    && (next.state.Pending? ==> old_.InAttempt() && next.failures == old_.failures + 1)
  }
}
