/** What any number of workers, crashes, lease expiries, claims and cancellations keep. */
module RunSafety {
  import opened Base
  import opened Graph
  import opened RunStore
  import Validate

  // ---- Statements only move rows forward ------------------------------------

  lemma CommitForward(c: Cluster, token: Id, id: Id, next: Node, outcome: Outcome)
    requires token in c.sessions && id in c.sessions[token].memory && Requested(c.sessions[token].memory[id], next)
    requires !outcome.RolledBack? ==> Fenced(c.db, token, id, c.sessions[token].memory[id].attempt)
    ensures Forward(c.db, Committed(c, token, id, next, outcome).db)
  {
  }

  lemma StepForward(c: Cluster, step: Step, c': Cluster)
    requires Next(c, step, c')
    ensures Forward(c.db, c'.db) && c.used <= c'.used
  {
    hide Requested, Committed;
    match step
    case Commits(token, id, next, outcome) => CommitForward(c, token, id, next, outcome); CommitKeepsUsed(c, token, id, next, outcome);
    case _ =>
  }

  lemma CommitKeepsUsed(c: Cluster, token: Id, id: Id, next: Node, outcome: Outcome)
    requires token in c.sessions && (outcome.RolledBack? || id in c.db.rows)
    ensures Committed(c, token, id, next, outcome).used == c.used
    ensures var db := Committed(c, token, id, next, outcome).db;
            db.token == c.db.token && db.leaseUntil == c.db.leaseUntil && db.now == c.db.now && db.root == c.db.root
  {
  }

  lemma {:induction false} RunForward(trace: seq<Cluster>, steps: seq<Step>, i: nat, j: nat)
    requires IsRun(trace, steps) && i <= j < |trace|
    ensures Forward(trace[i].db, trace[j].db) && trace[i].used <= trace[j].used
  {
    hide Next, Created;
    if i < j {
      RunForward(trace, steps, i, j - 1);
      StepForward(trace[j - 1], steps[j - 1], trace[j]);
    }
  }

  /** A finished row never changes again. */
  lemma FinishedRowsAreFinal(trace: seq<Cluster>, steps: seq<Step>, i: nat, j: nat, id: Id)
    requires IsRun(trace, steps) && i <= j < |trace|
    requires id in trace[i].db.rows && trace[i].db.rows[id].status.Final()
    ensures id in trace[j].db.rows && trace[j].db.rows[id] == trace[i].db.rows[id]
  {
    hide Next, Created;
    RunForward(trace, steps, i, j);
  }

  /** The attempt number of a row never goes down. */
  lemma AttemptsNeverDecrease(trace: seq<Cluster>, steps: seq<Step>, i: nat, j: nat, id: Id)
    requires IsRun(trace, steps) && i <= j < |trace| && id in trace[i].db.rows
    ensures id in trace[j].db.rows && trace[i].db.rows[id].attempts <= trace[j].db.rows[id].attempts
  {
    hide Next, Created;
    RunForward(trace, steps, i, j);
  }

  // ---- Fencing --------------------------------------------------------------

  /** A token that has been used and is not live. */
  predicate Dead(c: Cluster, token: Id) {
    token in c.used && !Active(c.db, token)
  }

  lemma DeadStaysDead(c: Cluster, step: Step, c': Cluster, token: Id)
    requires Dead(c, token) && Next(c, step, c')
    ensures Dead(c', token)
  {
    hide Requested, Committed;
    match step
    case Commits(t, id, next, outcome) => CommitKeepsUsed(c, t, id, next, outcome);
    case _ =>
  }

  /** The session behind the step. */
  predicate By(step: Step, token: Id) {
    match step
    case Loads(t) => t == token
    case Commits(t, _, _, _) => t == token
    case Inserts(t, _, _, _, _) => t == token
    case Adds(t, _) => t == token
    case Renews(t, _) => t == token
    case Releases(t) => t == token
    case _ => false
  }

  lemma DeadChangesNothing(c: Cluster, step: Step, c': Cluster, token: Id)
    requires Dead(c, token) && Next(c, step, c') && By(step, token)
    ensures c'.db.rows == c.db.rows && c'.graph == c.graph
  {
    hide Requested;
  }

  lemma {:induction false} DeadForever(trace: seq<Cluster>, steps: seq<Step>, i: nat, j: nat, token: Id)
    requires IsRun(trace, steps) && i <= j < |trace| && Dead(trace[i], token)
    ensures Dead(trace[j], token)
  {
    hide Next, Created, Dead;
    if i < j {
      DeadForever(trace, steps, i, j - 1, token);
      DeadStaysDead(trace[j - 1], steps[j - 1], trace[j], token);
    }
  }

  /** Fencing: once a worker's lease has expired, been replaced or been cleared, no later step
      of that worker changes a row, whatever the others do in between. */
  lemma FencedWorkerChangesNothing(trace: seq<Cluster>, steps: seq<Step>, i: nat, j: nat, token: Id)
    requires IsRun(trace, steps) && i <= j < |steps|
    requires token in trace[i].used && !Active(trace[i].db, token) && By(steps[j], token)
    ensures trace[j + 1].db.rows == trace[j].db.rows
  {
    hide Next, Created;
    DeadForever(trace, steps, i, j, token);
    DeadChangesNothing(trace[j], steps[j], trace[j + 1], token);
  }

  // ---- Handing attempts to runners ------------------------------------------

  /** The step starts attempt `number` of action `id`: only an acknowledged start reaches a
      runner. */
  predicate Hands(c: Cluster, step: Step, id: Id, number: int) {
    && step.Commits? && step.outcome.Acked? && step.id == id
    && step.token in c.sessions && id in c.sessions[step.token].memory
    && c.sessions[step.token].memory[id].state.Ready? && step.next.state.Running?
    && step.next.attempt == number
  }

  lemma HandedNumber(c: Cluster, step: Step, c': Cluster, id: Id, number: int)
    requires Next(c, step, c') && Hands(c, step, id, number)
    ensures id in c.db.rows && id in c'.db.rows && c.db.rows[id].attempts + 1 == number == c'.db.rows[id].attempts
  {
  }

  /** Each attempt number of an action reaches a runner at most once, over all workers. */
  lemma EachAttemptRunsOnce(trace: seq<Cluster>, steps: seq<Step>, i: nat, j: nat, id: Id, first: int, second: int)
    requires IsRun(trace, steps) && i < j < |steps|
    requires Hands(trace[i], steps[i], id, first) && Hands(trace[j], steps[j], id, second)
    ensures first < second
  {
    hide Next, Created, Hands;
    HandedNumber(trace[i], steps[i], trace[i + 1], id, first);
    RunForward(trace, steps, i + 1, j);
    HandedNumber(trace[j], steps[j], trace[j + 1], id, second);
  }

  // ---- Memory and rows ------------------------------------------------------

  /** Rows mirror the graph as of the last committed transition. */
  ghost predicate RowsMirror(c: Cluster) {
    c.db.rows.Keys == c.graph.Keys && forall id :: id in c.graph ==> Mirrors(c.db.rows[id], c.graph[id])
  }

  predicate TokensKnown(c: Cluster) {
    c.sessions.Keys <= c.used && (c.db.token.Some? ==> c.db.token.value in c.used)
  }

  /** A worker with a live lease has in memory what is stored; what it has not added yet has
      not been touched. */
  predicate MemoryAgrees(c: Cluster, token: Id) {
    Working(c, token) && Active(c.db, token) ==>
      var memory := c.sessions[token].memory;
      && (forall id :: id in memory ==> id in c.graph && memory[id] == c.graph[id])
      && (forall id :: id in c.graph && id !in memory ==> c.graph[id] == Collapse(c.graph[id]))
  }

  ghost predicate ClusterInv(c: Cluster) {
    RowsMirror(c) && TokensKnown(c) && forall token :: token in c.sessions ==> MemoryAgrees(c, token)
  }

  lemma CommitMirrors(row: Row, n: Node, next: Node)
    requires Mirrors(row, n) && next.spec == n.spec
    ensures Mirrors(Updated(row, next), next)
  {
  }

  lemma CommitKeepsRows(c: Cluster, token: Id, id: Id, next: Node, outcome: Outcome)
    requires RowsMirror(c) && Working(c, token) && id in c.sessions[token].memory && MemoryAgrees(c, token)
    requires Requested(c.sessions[token].memory[id], next)
    requires !outcome.RolledBack? ==> Fenced(c.db, token, id, c.sessions[token].memory[id].attempt)
    ensures RowsMirror(Committed(c, token, id, next, outcome))
  {
    if !outcome.RolledBack? { CommitMirrors(c.db.rows[id], c.graph[id], next); }
    hide Mirrors, LegalCommit, Updated, Collapse;
  }

  lemma CommitInv(c: Cluster, token: Id, id: Id, next: Node, outcome: Outcome)
    requires ClusterInv(c) && Working(c, token) && id in c.sessions[token].memory
    requires Requested(c.sessions[token].memory[id], next)
    requires !outcome.RolledBack? ==> Fenced(c.db, token, id, c.sessions[token].memory[id].attempt)
    ensures ClusterInv(Committed(c, token, id, next, outcome))
  {
    hide Mirrors, LegalCommit, Requested, Collapse;
    var c' := Committed(c, token, id, next, outcome);
    assert RowsMirror(c') by { CommitKeepsRows(c, token, id, next, outcome); }
    hide RowsMirror;
    forall t | t in c'.sessions ensures MemoryAgrees(c', t) {
      assert MemoryAgrees(c, t) && MemoryAgrees(c, token);
    }
  }

  lemma RequeuedMirrors(row: Row, n: Node)
    requires Mirrors(row, n)
    ensures Mirrors(Requeued(row), Collapse(n))
  {
  }

  lemma LoadMirrors(c: Cluster, token: Id)
    requires RowsMirror(c) && token in c.sessions
    ensures RowsMirror(Loaded(c, token))
  {
    var rows, graph := Loaded(c, token).db.rows, Loaded(c, token).graph;
    forall id | id in graph ensures id in rows && Mirrors(rows[id], graph[id]) {
      RequeuedMirrors(c.db.rows[id], c.graph[id]);
    }
    hide Mirrors, Requeued, Collapse, LoadGraph;
  }

  lemma LoadedMemory(c: Cluster, token: Id)
    requires RowsMirror(c) && token in c.sessions
    ensures Loaded(c, token).sessions[token].memory == CollapseAll(c.graph)
  {
    var rows := Reset(c.db, token).rows;
    forall id | id in rows ensures GraphNode(rows[id]) == Collapse(c.graph[id]) {
      ReloadCollapses(c.db.rows[id], c.graph[id]);
    }
  }

  lemma LoadInv(c: Cluster, token: Id)
    requires ClusterInv(c) && token in c.sessions
    ensures ClusterInv(Loaded(c, token))
  {
    var c' := Loaded(c, token);
    LoadMirrors(c, token);
    LoadedMemory(c, token);
    forall t | t in c'.sessions ensures MemoryAgrees(c', t) {
      assert MemoryAgrees(c, t);
    }
  }

  lemma NewRowMirrors(row: Row, caller: Id)
    requires row == NewRow(caller, row.limit, row.imageKey, row.cacheKey)
    ensures Mirrors(row, GraphNode(row)) && Collapse(GraphNode(row)) == GraphNode(row)
  {
  }

  lemma InsertInv(c: Cluster, caller: Id, id: Id, row: Row)
    requires ClusterInv(c) && id !in c.db.rows && row == NewRow(caller, row.limit, row.imageKey, row.cacheKey)
    ensures ClusterInv(c.(db := c.db.(rows := c.db.rows[id := row]), graph := c.graph[id := GraphNode(row)]))
  {
    var c' := c.(db := c.db.(rows := c.db.rows[id := row]), graph := c.graph[id := GraphNode(row)]);
    NewRowMirrors(row, caller);
    hide Mirrors, GraphNode, NewRow, MemoryAgrees, Collapse;
    assert RowsMirror(c');
    forall t | t in c'.sessions ensures MemoryAgrees(c', t) {
      hide RowsMirror;
      InsertAgrees(c, c', t, id);
    }
  }

  lemma InsertAgrees(c: Cluster, c': Cluster, token: Id, id: Id)
    requires token in c.sessions && MemoryAgrees(c, token) && id !in c.graph
    requires c'.sessions == c.sessions && c'.db.token == c.db.token && c'.db.now == c.db.now && c'.db.leaseUntil == c.db.leaseUntil
    requires id in c'.graph && c'.graph == c.graph[id := c'.graph[id]] && c'.graph[id] == Collapse(c'.graph[id])
    ensures MemoryAgrees(c', token)
  {
    hide Collapse;
  }

  lemma AddInv(c: Cluster, token: Id, id: Id)
    requires ClusterInv(c) && Working(c, token) && id !in c.sessions[token].memory && id in c.db.rows
    ensures ClusterInv(SetSession(c, token, c.sessions[token].(memory := c.sessions[token].memory[id := GraphNode(c.db.rows[id])])))
  {
    var c' := SetSession(c, token, c.sessions[token].(memory := c.sessions[token].memory[id := GraphNode(c.db.rows[id])]));
    ReloadCollapses(c.db.rows[id], c.graph[id]);
    hide Mirrors, GraphNode, Collapse;
    forall t | t in c'.sessions ensures MemoryAgrees(c', t) {
      assert MemoryAgrees(c, t);
    }
  }

  lemma CancelInv(c: Cluster)
    requires ClusterInv(c)
    ensures ClusterInv(c.(db := CancelRun(c.db), graph := CanceledGraph(c)))
  {
    var c' := c.(db := CancelRun(c.db), graph := CanceledGraph(c));
    forall id | id in c'.graph ensures Mirrors(c'.db.rows[id], c'.graph[id]) {
      CancelMirrors(c.db.rows[id], c.graph[id]);
    }
    hide Mirrors, CanceledRow, CanceledGraphNode;
  }

  lemma CancelMirrors(row: Row, n: Node)
    requires Mirrors(row, n)
    ensures Mirrors(CanceledRow(row), CanceledGraphNode(n))
  {
  }

  /** Leases, clocks and crashes. */
  lemma LeaseInv(c: Cluster, c': Cluster)
    requires ClusterInv(c) && c'.graph == c.graph && c'.db.rows == c.db.rows && TokensKnown(c')
    requires forall t :: t in c'.sessions && c'.sessions[t].loaded ==>
               t in c.sessions && c'.sessions[t] == c.sessions[t] && (Active(c'.db, t) ==> Active(c.db, t))
    ensures ClusterInv(c')
  {
    hide Mirrors, Collapse;
    forall t | t in c'.sessions ensures MemoryAgrees(c', t) {
      if t in c.sessions { assert MemoryAgrees(c, t); }
    }
  }

  lemma StepInv(c: Cluster, step: Step, c': Cluster)
    requires ClusterInv(c) && Next(c, step, c')
    ensures ClusterInv(c')
  {
    hide RowsMirror, MemoryAgrees, Requested, Committed, Loaded, CancelRun, CanceledGraph, GraphNode;
    match step
    case Commits(token, id, next, outcome) => CommitInv(c, token, id, next, outcome);
    case Loads(token) => LoadInv(c, token);
    case Inserts(token, caller, attempt, id, row) => InsertInv(c, caller, id, row);
    case Adds(token, id) => AddInv(c, token, id);
    case Cancels => CancelInv(c);
    case _ => LeaseInv(c, c');
  }

  lemma CreatedInv(c: Cluster)
    requires Created(c)
    ensures ClusterInv(c)
  {
  }

  lemma {:induction false} RunInv(trace: seq<Cluster>, steps: seq<Step>, i: nat)
    requires IsRun(trace, steps) && i < |trace|
    ensures ClusterInv(trace[i])
  {
    hide Next, ClusterInv, Created;
    if i == 0 {
      CreatedInv(trace[0]);
    } else {
      RunInv(trace, steps, i - 1);
      StepInv(trace[i - 1], steps[i - 1], trace[i]);
    }
  }

  /** A worker whose lease is live and whose writes have all been acknowledged has exactly the
      stored graph in memory. */
  lemma LiveMemoryIsStored(trace: seq<Cluster>, steps: seq<Step>, i: nat, token: Id, id: Id)
    requires IsRun(trace, steps) && i < |trace|
    requires Working(trace[i], token) && Active(trace[i].db, token) && id in trace[i].sessions[token].memory
    ensures id in trace[i].db.rows && Mirrors(trace[i].db.rows[id], trace[i].sessions[token].memory[id])
    ensures Stores(trace[i].db.rows[id], trace[i].sessions[token].memory[id])
  {
    hide Next, Created;
    RunInv(trace, steps, i);
    assert MemoryAgrees(trace[i], token);
    hide Stores;
    MirrorStores(trace[i].db.rows[id], trace[i].sessions[token].memory[id]);
  }

  /** Every write stores the node it is asked for, under the names the table has for its state, and
      touches nothing else. */
  lemma CommitStores(c: Cluster, step: Step, c': Cluster)
    requires Next(c, step, c') && step.Commits? && !step.outcome.RolledBack?
    ensures step.id in c.db.rows && c'.db.rows.Keys == c.db.rows.Keys && Stores(c'.db.rows[step.id], step.next)
    ensures forall x :: x in c.db.rows && x != step.id ==> c'.db.rows[x] == c.db.rows[x]
  {
    hide Requested;
  }

  /** In every run a load gives each node as its row has it. */
  lemma LoadRestoresRows(trace: seq<Cluster>, steps: seq<Step>, i: nat, id: Id)
    requires IsRun(trace, steps) && i < |steps| && steps[i].Loads? && id in trace[i + 1].db.rows
    ensures steps[i].token in trace[i + 1].sessions && id in trace[i + 1].sessions[steps[i].token].memory
    ensures Restores(trace[i + 1].sessions[steps[i].token].memory[id], trace[i + 1].db.rows[id])
  {
    assert Next(trace[i], steps[i], trace[i + 1]);
    hide Reset, LoadGraph, Created;
    LoadRestores(trace[i + 1].db, id);
  }

  // ---- Crash and recovery ---------------------------------------------------

  /** The step neither commits a transition nor cancels the run. */
  predicate Quiet(step: Step) {
    !step.Cancels? && (step.Commits? ==> step.outcome.RolledBack?)
  }

  lemma QuietKeepsCollapse(c: Cluster, step: Step, c': Cluster, id: Id)
    requires Next(c, step, c') && Quiet(step) && id in c.graph && c.graph.Keys == c.db.rows.Keys
    ensures id in c'.graph && Collapse(c'.graph[id]) == Collapse(c.graph[id])
  {
    hide Requested, LegalCommit, GraphNode;
  }

  lemma {:induction false} QuietRunKeepsCollapse(trace: seq<Cluster>, steps: seq<Step>, i: nat, j: nat, id: Id)
    requires IsRun(trace, steps) && i <= j < |trace| && id in trace[i].graph
    requires forall k :: i <= k < j ==> Quiet(steps[k])
    ensures id in trace[j].graph && Collapse(trace[j].graph[id]) == Collapse(trace[i].graph[id])
  {
    hide Next, Created, Collapse, Mirrors, MemoryAgrees;
    if i < j {
      QuietRunKeepsCollapse(trace, steps, i, j - 1, id);
      RunInv(trace, steps, j - 1);
      QuietKeepsCollapse(trace[j - 1], steps[j - 1], trace[j], id);
    }
  }

  /** Crash refinement: worker `a` has its graph in memory under a live lease and commits
      nothing more, for whatever reason. However often the run is then claimed, released or
      left to expire, the next worker to load it gets, for every node `a` had, that node with
      its progress collapsed to pending; attempt number, failures, output, error and retry
      time are unchanged. */
  lemma CrashLosesNothing(trace: seq<Cluster>, steps: seq<Step>, i: nat, j: nat, a: Id, b: Id, id: Id)
    requires IsRun(trace, steps) && i <= j < |steps|
    requires Working(trace[i], a) && Active(trace[i].db, a) && id in trace[i].sessions[a].memory
    requires (forall k :: i <= k < j ==> Quiet(steps[k])) && steps[j] == Loads(b)
    ensures b in trace[j + 1].sessions && id in trace[j + 1].sessions[b].memory
    ensures trace[j + 1].sessions[b].memory[id] == Collapse(trace[i].sessions[a].memory[id])
  {
    hide Next, Created, Mirrors, Collapse;
    RunInv(trace, steps, i);
    assert MemoryAgrees(trace[i], a);
    QuietRunKeepsCollapse(trace, steps, i, j, id);
    RunInv(trace, steps, j);
    LoadsGraph(trace[j], b, trace[j + 1]);
  }

  /** A load rebuilds the whole graph as of the last committed transition, collapsed. */
  lemma LoadsGraph(c: Cluster, b: Id, c': Cluster)
    requires RowsMirror(c) && Next(c, Loads(b), c')
    ensures b in c'.sessions && c'.sessions[b].memory == CollapseAll(c.graph)
  {
    LoadedMemory(c, b);
  }

  // ---- Loaded graphs --------------------------------------------------------

  lemma CommittedGraph(c: Cluster, token: Id, id: Id, next: Node, outcome: Outcome)
    requires ClusterInv(c) && Working(c, token) && id in c.sessions[token].memory
    requires Requested(c.sessions[token].memory[id], next)
    requires !outcome.RolledBack? ==> Fenced(c.db, token, id, c.sessions[token].memory[id].attempt)
    ensures SameLinks(c.graph, Committed(c, token, id, next, outcome).graph)
    ensures Committed(c, token, id, next, outcome).db.root == c.db.root
  {
    assert MemoryAgrees(c, token);
    hide Mirrors, Fenced;
  }

  /** Statements keep the parent links; only an insert adds one, to a row that is there. */
  lemma TreeStep(c: Cluster, step: Step, c': Cluster)
    requires ClusterInv(c) && Next(c, step, c') && Tree(c.graph, c.db.root)
    ensures Tree(c'.graph, c'.db.root)
  {
    hide ClusterInv, Requested, Committed, Tree, Fenced, LoadGraph;
    if step.Inserts? {
      InsertedTree(c, step, c');
    } else if step.Commits? {
      CommittedGraph(c, step.token, step.id, step.next, step.outcome);
      SameLinksSameTree(c.graph, c'.graph, c.db.root);
    } else {
      SameLinksSameTree(c.graph, c'.graph, c.db.root);
    }
  }

  lemma InsertedTree(c: Cluster, step: Step, c': Cluster)
    requires ClusterInv(c) && Next(c, step, c') && step.Inserts? && Tree(c.graph, c.db.root)
    ensures Tree(c'.graph, c'.db.root)
  {
    hide Tree, Mirrors, MemoryAgrees;
    LeafKeepsTree(c.graph, c.db.root, step.id, GraphNode(step.row));
  }

  lemma {:induction false} RunKeepsTree(trace: seq<Cluster>, steps: seq<Step>, i: nat)
    requires IsRun(trace, steps) && i < |trace|
    ensures Tree(trace[i].graph, trace[i].db.root)
  {
    if i == 0 {
      hide Next;
      CreatedTree(trace[0]);
    } else {
      hide Next, ClusterInv, Created, Tree;
      RunKeepsTree(trace, steps, i - 1);
      RunInv(trace, steps, i - 1);
      TreeStep(trace[i - 1], steps[i - 1], trace[i]);
    }
  }

  lemma CreatedTree(c: Cluster)
    requires Created(c)
    ensures Tree(c.graph, c.db.root)
  {
    var root := c.db.root;
    forall id, path | id in c.graph ensures !Chain(c.graph, id, id, path) {
      if |path| >= 2 { assert !ChildOf(c.graph, path[0 + 1], path[0]); }
    }
  }

  /** Whatever workers, crashes and cancellations did before, the graph loaded from the rows is one
      `Run` accepts: a tree under the run's root action, whose nodes have no prerequisites and are
      pending or terminal. */
  lemma LoadedGraphsAreAccepted(trace: seq<Cluster>, steps: seq<Step>, i: nat)
    requires IsRun(trace, steps) && i < |trace|
    ensures var nodes := LoadGraph(trace[i].db);
            && Validate.Acceptable(nodes) && Tree(nodes, trace[i].db.root)
            && forall id :: id in nodes ==> nodes[id].spec.prerequisites == [] && nodes[id].Restored()
  {
    hide Next, Created, Tree, MemoryAgrees, RowsMirror, LoadGraph, IsRun, Validate.PrerequisitesExist, Validate.PrerequisitesAcyclic;
    var c := trace[i];
    RunKeepsTree(trace, steps, i);
    RunInv(trace, steps, i);
    LoadedLinks(c);
    SameLinksSameTree(c.graph, LoadGraph(c.db), c.db.root);
    WithoutPrerequisites(LoadGraph(c.db));
  }

  lemma WithoutPrerequisites(nodes: Nodes)
    requires forall id :: id in nodes ==> nodes[id].spec.prerequisites == []
    ensures Validate.PrerequisitesExist(nodes) && Validate.PrerequisitesAcyclic(nodes)
  {
    forall id, path: seq<Id> | id in nodes && |path| >= 2 && path[0] == id ensures !Validate.Walk(nodes, path) {
      assert !Validate.Needs(nodes, path[0], path[0 + 1]);
    }
  }

  lemma LoadedLinks(c: Cluster)
    requires RowsMirror(c)
    ensures SameLinks(c.graph, LoadGraph(c.db))
    ensures forall id :: id in LoadGraph(c.db) ==> LoadGraph(c.db)[id].spec.prerequisites == [] && LoadGraph(c.db)[id].Restored()
  {
  }

  // ---- Two lost prerequisites -----------------------------------------------

  /** Writing a finished node again is refused by the fence: against this store the second
      lost prerequisite of a node would end the run. */
  lemma SecondFailureIsRefused(c: Cluster, step: Step, c': Cluster)
    requires ClusterInv(c) && Next(c, step, c') && step.Commits?
    requires c.sessions[step.token].memory[step.id].Terminal()
    ensures step.outcome.RolledBack? && c'.sessions[step.token].failed && c'.db == c.db
  {
    assert MemoryAgrees(c, step.token);
    if Active(c.db, step.token) { assert Mirrors(c.db.rows[step.id], c.graph[step.id]); }
  }
}
