/** Which graphs workers find closed when they load them, and how a graph gets left open. */
module RunClosure {
  import opened Base
  import opened Graph
  import Exec
  import ExecInvariants
  import ExecRuns
  import E = ExecClosure
  import ExecCuts
  import W = ExecWrites
  import opened RunStore
  import RunSafety
  import opened RunRefinement

  /** The transition takes effect, whether its worker learns of it or not. */
  predicate Applies(step: Step) {
    step.Commits? && !step.outcome.RolledBack?
  }

  // ---- Rows and memory ------------------------------------------------------

  /** A transition that ends an action finds every stored child of it in its worker's graph. */
  predicate EndsWithItsRows(c: Cluster, step: Step) {
    Applies(step) && step.next.Terminal() && step.token in c.sessions ==>
      forall x :: x in c.graph && ChildOf(c.graph, x, step.id) ==> x in c.sessions[step.token].memory
  }

  predicate Timely(trace: seq<Cluster>, steps: seq<Step>, j: nat)
    requires j <= |steps| < |trace|
  {
    forall k :: 0 <= k < j ==> EndsWithItsRows(trace[k], steps[k])
  }

  /** What a session has not added to its graph yet has a live parent. */
  predicate HasItsRows(c: Cluster, token: Id) {
    token in c.sessions && c.sessions[token].loaded && Active(c.db, token) ==>
      forall x :: x in c.graph && x !in c.sessions[token].memory ==> !ParentTerminal(c.graph, x)
  }

  /** A row that can be inserted hangs under a live node. */
  lemma InsertUnderLive(c: Cluster, token: Id, caller: Id, attempt: int)
    requires RunSafety.RowsMirror(c) && CanInsert(c.db, token, caller, attempt)
    ensures caller in c.graph && !c.graph[caller].Terminal()
  {
    assert Mirrors(c.db.rows[caller], c.graph[caller]);
  }

  lemma CommitHasItsRows(c: Cluster, step: Step, c': Cluster, token: Id)
    requires RunSafety.ClusterInv(c) && Next(c, step, c') && step.Commits? && HasItsRows(c, token) && EndsWithItsRows(c, step)
    ensures HasItsRows(c', token)
  {
    hide RunSafety.RowsMirror, Requested;
    assert RunSafety.MemoryAgrees(c, step.token);
  }

  lemma InsertHasItsRows(c: Cluster, step: Step, c': Cluster, token: Id)
    requires RunSafety.ClusterInv(c) && Next(c, step, c') && step.Inserts? && HasItsRows(c, token)
    ensures HasItsRows(c', token)
  {
    InsertUnderLive(c, step.token, step.caller, step.attempt);
    hide RunSafety.ClusterInv;
  }

  lemma LoadHasItsRows(c: Cluster, step: Step, c': Cluster, token: Id)
    requires RunSafety.ClusterInv(c) && Next(c, step, c') && step.Loads? && HasItsRows(c, token)
    ensures HasItsRows(c', token)
  {
    hide Mirrors, GraphNode, Collapse, Requeued, RunSafety.MemoryAgrees;
  }

  lemma StepHasItsRows(c: Cluster, step: Step, c': Cluster, token: Id)
    requires RunSafety.ClusterInv(c) && Next(c, step, c') && HasItsRows(c, token) && EndsWithItsRows(c, step)
    ensures HasItsRows(c', token)
  {
    if step.Commits? { CommitHasItsRows(c, step, c', token); }
    else if step.Inserts? { InsertHasItsRows(c, step, c', token); }
    else if step.Loads? { LoadHasItsRows(c, step, c', token); }
    else {
      CancelClears(c.db);
      hide RunSafety.RowsMirror, RunSafety.MemoryAgrees, GraphNode, CanceledGraph, CancelRun;
    }
  }

  lemma CancelClears(db: Database)
    ensures CancelRun(db).token.None?
  {
  }

  lemma {:induction false} RunHasItsRows(trace: seq<Cluster>, steps: seq<Step>, i: nat, token: Id)
    requires IsRun(trace, steps) && i <= |steps| < |trace| && Timely(trace, steps, i)
    ensures HasItsRows(trace[i], token)
  {
    hide Next, HasItsRows, EndsWithItsRows;
    if i == 0 {
      NoSessions(trace[0], token);
    } else {
      hide Created;
      RunHasItsRows(trace, steps, i - 1, token);
      RunSafety.RunInv(trace, steps, i - 1);
      StepHasItsRows(trace[i - 1], steps[i - 1], trace[i], token);
    }
  }

  lemma NoSessions(c: Cluster, token: Id)
    requires Created(c)
    ensures HasItsRows(c, token)
  {
  }

  // ---- Without transitions --------------------------------------------------

  lemma LoadKeepsClosed(c: Cluster, step: Step, c': Cluster)
    requires Next(c, step, c') && step.Loads? && ChildrenClosed(c.graph)
    ensures ChildrenClosed(c'.graph)
  {
    hide LoadGraph, Reset;
    forall x | x in c'.graph && ParentTerminal(c'.graph, x) ensures c'.graph[x].Terminal() {
      assert ParentTerminal(c.graph, x);
    }
  }

  lemma InsertKeepsClosed(c: Cluster, step: Step, c': Cluster)
    requires RunSafety.RowsMirror(c) && Next(c, step, c') && step.Inserts? && ChildrenClosed(c.graph)
    ensures ChildrenClosed(c'.graph)
  {
    InsertUnderLive(c, step.token, step.caller, step.attempt);
    hide RunSafety.RowsMirror;
    forall x | x in c'.graph && ParentTerminal(c'.graph, x) ensures c'.graph[x].Terminal() {
      assert ParentTerminal(c.graph, x);
    }
  }

  lemma CancelKeepsClosed(c: Cluster)
    requires ChildrenClosed(c.graph)
    ensures ChildrenClosed(CanceledGraph(c))
  {
  }

  /** Only transitions can open a graph. */
  lemma QuietKeepsClosed(c: Cluster, step: Step, c': Cluster)
    requires RunSafety.RowsMirror(c) && Next(c, step, c') && !Applies(step) && ChildrenClosed(c.graph)
    ensures ChildrenClosed(c'.graph)
  {
    if step.Loads? { LoadKeepsClosed(c, step, c'); }
    else if step.Inserts? { InsertKeepsClosed(c, step, c'); }
    else if step.Cancels? { CancelKeepsClosed(c); }
    else { hide RunSafety.RowsMirror, ChildrenClosed, Requested, Fenced; }
  }

  lemma {:induction false} QuietStretchKeepsClosed(trace: seq<Cluster>, steps: seq<Step>, i: nat, j: nat)
    requires IsRun(trace, steps) && i <= j <= |steps| < |trace| && (forall k :: i <= k < j ==> !Applies(steps[k]))
    requires ChildrenClosed(trace[i].graph)
    ensures ChildrenClosed(trace[j].graph)
    decreases j - i
  {
    hide Next, Created, ChildrenClosed, Applies, RunSafety.RowsMirror, RunSafety.MemoryAgrees;
    if i < j {
      NthNext(trace, steps, i);
      RunSafety.RunInv(trace, steps, i);
      QuietKeepsClosed(trace[i], steps[i], trace[i + 1]);
      QuietStretchKeepsClosed(trace, steps, i + 1, j);
    }
  }

  lemma CreatedClosed(c: Cluster)
    requires Created(c)
    ensures ChildrenClosed(c.graph)
  {
  }

  /** Loading keeps which nodes are terminal. */
  lemma LoadedClosure(c: Cluster)
    requires RunSafety.RowsMirror(c)
    ensures SubtreesClosed(LoadGraph(c.db)) <==> ChildrenClosed(c.graph)
  {
    var nodes := LoadGraph(c.db);
    assert nodes.Keys == c.graph.Keys;
    forall id | id in nodes ensures Mirrors(c.db.rows[id], c.graph[id]) && nodes[id] == Collapse(c.graph[id]) {
      ReloadCollapses(c.db.rows[id], c.graph[id]);
    }
    hide Mirrors, GraphNode, LoadGraph;
    ClosureIsLocal(nodes);
    forall id | id in nodes
      ensures (ParentTerminal(nodes, id) <==> ParentTerminal(c.graph, id)) && (nodes[id].Terminal() <==> c.graph[id].Terminal())
    {
      assert nodes[id] == Collapse(c.graph[id]);
    }
  }

  // ---- Steps that were completed --------------------------------------------

  /** Transition `k` belongs to a step its worker completed, with every transition acknowledged. */
  ghost predicate InWholeStep(w: Worker, m: nat, trace: seq<Cluster>, steps: seq<Step>, k: nat) {
    && Works(w, trace, steps) && m < |w.moves| && |w.states| == |w.at| == |w.moves| + 1
    && k < |steps| && steps[k].Commits? && steps[k].token == w.token
    && w.at[m] <= k < w.at[m + 1] && !w.states[m + 1].loop.failed
  }

  /** No step was cut short: every transition so far belongs to a completed one. */
  ghost predicate Whole(trace: seq<Cluster>, steps: seq<Step>, j: nat)
    requires j <= |steps|
  {
    forall k :: 0 <= k < j && Applies(steps[k]) ==> exists w, m :: InWholeStep(w, m, trace, steps, k)
  }

  /** Nobody who has written holds the lease. */
  predicate WritersGone(trace: seq<Cluster>, steps: seq<Step>, j: nat)
    requires j <= |steps| < |trace|
  {
    forall k :: 0 <= k < j && Applies(steps[k]) ==> !Active(trace[j].db, steps[k].token)
  }

  /** A session that has worked is not loaded again. */
  predicate LoadedBefore(c: Cluster, token: Id) {
    token in c.used && (token in c.sessions ==> c.sessions[token].loaded)
  }

  lemma WorkedBefore(c: Cluster, step: Step, c': Cluster)
    requires RunSafety.TokensKnown(c) && Next(c, step, c') && step.Commits?
    ensures LoadedBefore(c', step.token)
  {
    hide Requested, Fenced;
  }

  lemma StaysLoaded(c: Cluster, step: Step, c': Cluster, token: Id)
    requires Next(c, step, c') && LoadedBefore(c, token)
    ensures LoadedBefore(c', token) && step != Loads(token)
  {
    hide Requested, Fenced, LoadGraph, Reset, CancelRun, CanceledGraph, GraphNode;
  }

  lemma {:induction false} StaysLoadedFor(trace: seq<Cluster>, steps: seq<Step>, i: nat, j: nat, token: Id)
    requires IsRun(trace, steps) && i <= j < |steps| < |trace| && LoadedBefore(trace[i], token)
    ensures LoadedBefore(trace[j], token) && steps[j] != Loads(token)
    decreases j - i
  {
    hide Next, Created, LoadedBefore;
    NthNext(trace, steps, i);
    StaysLoaded(trace[i], steps[i], trace[i + 1], token);
    if i < j { StaysLoadedFor(trace, steps, i + 1, j, token); }
  }

  lemma NotLoadedAgain(trace: seq<Cluster>, steps: seq<Step>, k: nat, j: nat)
    requires IsRun(trace, steps) && k < j < |steps| < |trace| && steps[k].Commits?
    ensures steps[j] != Loads(steps[k].token)
  {
    hide Next, Created, LoadedBefore, RunSafety.TokensKnown;
    NthNext(trace, steps, k);
    Known(trace, steps, k);
    WorkedBefore(trace[k], steps[k], trace[k + 1]);
    StaysLoadedFor(trace, steps, k + 1, j, steps[k].token);
  }

  /** Whoever makes a transition that applies holds the lease, before and after it. */
  lemma WriterIsActive(c: Cluster, step: Step, c': Cluster)
    requires RunSafety.TokensKnown(c) && Next(c, step, c') && Applies(step)
    ensures Active(c.db, step.token) && Active(c'.db, step.token) && step.token in c.used && step.token in c'.sessions
  {
    hide Requested;
  }

  /** A lease that is live at two moments was live in between. */
  lemma ActiveBetween(trace: seq<Cluster>, steps: seq<Step>, i: nat, j: nat, token: Id)
    requires IsRun(trace, steps) && i <= j < |trace| && token in trace[i].used && Active(trace[j].db, token)
    ensures Active(trace[i].db, token)
  {
    hide Next, Created, Active;
    if !Active(trace[i].db, token) { RunSafety.DeadForever(trace, steps, i, j, token); }
  }

  lemma {:induction false} StatesAreReached(w: Worker, trace: seq<Cluster>, steps: seq<Step>, m: nat)
    requires Works(w, trace, steps) && m < |w.at|
    ensures w.at[0] <= w.at[m] <= |steps|
  {
    hide Next, Created, ExecRuns.GoodRun, Carries;
    FirstGraph(w, trace, steps);
    if m > 0 {
      StatesAreReached(w, trace, steps, m - 1);
      StateAt(w, trace, steps, m - 1);
    }
  }

  /** When a worker that later writes loads its graph, nobody who wrote before holds the lease. */
  lemma WritersGoneAtLoad(trace: seq<Cluster>, steps: seq<Step>, at: nat, token: Id)
    requires IsRun(trace, steps) && at < |steps| < |trace| && steps[at] == Loads(token) && Active(trace[at].db, token)
    ensures WritersGone(trace, steps, at)
  {
    hide Next, Created;
    forall k | 0 <= k < at && Applies(steps[k]) ensures !Active(trace[at].db, steps[k].token) {
      NotLoadedAgain(trace, steps, k, at);
    }
  }

  lemma LoadsUnderLease(w: Worker, m: nat, trace: seq<Cluster>, steps: seq<Step>, k: nat)
    requires InWholeStep(w, m, trace, steps, k) && Applies(steps[k])
    ensures IsRun(trace, steps) && 0 < w.at[0] <= w.at[m] <= k < |steps| < |trace|
    ensures steps[w.at[0] - 1] == Loads(w.token) && Active(trace[w.at[0] - 1].db, w.token)
    ensures w.states[0].nodes == LoadGraph(trace[w.at[0]].db)
  {
    hide Next, Created, ExecRuns.GoodRun, Carries, Active, LoadGraph;
    StatesAreReached(w, trace, steps, m);
    RunLength(trace, steps);
    var at := w.at[0] - 1;
    NthNext(trace, steps, at);
    NthNext(trace, steps, k);
    Known(trace, steps, at);
    Known(trace, steps, k);
    WriterIsActive(trace[k], steps[k], trace[k + 1]);
    LoaderIsUsed(trace[at], w.token, trace[at + 1]);
    ActiveBetween(trace, steps, at, k, w.token);
    LoadsGraph(trace[at], w.token, trace[at + 1]);
  }

  lemma LoaderIsUsed(c: Cluster, token: Id, c': Cluster)
    requires RunSafety.TokensKnown(c) && Next(c, Loads(token), c')
    ensures token in c.used
  {
  }

  // ---- The last transition --------------------------------------------------

  lemma {:induction false} AnswersHas(steps: seq<Step>, token: Id, lo: nat, hi: nat, k: nat)
    requires lo <= k < hi <= |steps| && TransitionBy(steps[k], token)
    ensures W.Write(steps[k].id, steps[k].next, steps[k].outcome.Acked?) in Answers(steps, token, lo, hi)
    decreases hi - lo
  {
    if lo < k { AnswersHas(steps, token, lo + 1, hi, k); }
  }

  lemma AllAcknowledged(a: Nodes, writes: seq<W.Write>, b: Nodes, again: bool, w: W.Write)
    requires W.Orderly(a, writes, b, false, again) && w in writes
    ensures w.ok
  {
    hide W.Orderly;
    var m :| 0 <= m < |writes| && writes[m] == w;
    W.OrderlyAt(a, writes, b, false, again, m);
  }

  /** In a completed step without a refusal every transition was acknowledged. */
  lemma StepIsAcknowledged(w: Worker, m: nat, trace: seq<Cluster>, steps: seq<Step>, k: nat)
    requires InWholeStep(w, m, trace, steps, k)
    ensures steps[k].outcome.Acked? && !w.moves[m].AddNode? && w.at[m + 1] <= |steps|
    ensures AllLeave(steps, w.token, w.at[m], w.at[m + 1])
  {
    hide Next, IsRun, ExecInvariants.Inv, Exec.Next, W.Orderly, W.Sent, Works;
    FirstGraph(w, trace, steps);
    StateAt(w, trace, steps, m);
    var lo, hi := w.at[m], w.at[m + 1];
    if w.moves[m].AddNode? {
      AnswersHas(steps, w.token, lo, hi - 1, k);
    } else {
      var s, s' := w.states[m], w.states[m + 1];
      W.StepIsExplained(s, w.moves[m], s', w.orders[m]);
      AnswersHas(steps, w.token, lo, hi, k);
      AllAcknowledged(s.nodes, W.Sent(s, w.moves[m], w.orders[m]), s'.nodes, w.moves[m].DispatchFailAgain?,
                      W.Write(steps[k].id, steps[k].next, steps[k].outcome.Acked?));
    }
  }

  /** A session nobody touches stays as it is. */
  lemma {:induction false} SessionStaysFor(trace: seq<Cluster>, steps: seq<Step>, token: Id, lo: nat, hi: nat)
    requires IsRun(trace, steps) && lo <= hi <= |steps| < |trace| && AllLeave(steps, token, lo, hi) && token in trace[lo].sessions
    requires forall k :: lo <= k < hi ==> !TransitionBy(steps[k], token)
    ensures token in trace[hi].sessions && trace[hi].sessions[token] == trace[lo].sessions[token]
    decreases hi - lo
  {
    hide Next, Created, RunSafety.TokensKnown;
    if lo < hi {
      NthNext(trace, steps, lo);
      Known(trace, steps, lo);
      assert Leaves(steps[lo], token);
      SessionStays(trace[lo], steps[lo], trace[lo + 1], token);
      SessionStaysFor(trace, steps, token, lo + 1, hi);
    }
  }

  /** If nothing applies between `k` and `j`, and the writer's lease is gone at `j`, transition
      `k` is the last of its step. */
  lemma LastOfStep(w: Worker, m: nat, trace: seq<Cluster>, steps: seq<Step>, k: nat, j: nat, l: nat)
    requires InWholeStep(w, m, trace, steps, k) && k < l < w.at[m + 1] && k < j < |trace| && |w.at| == |w.moves| + 1
    requires (forall x :: k < x < j ==> x < |steps| && !Applies(steps[x])) && !Active(trace[j].db, w.token)
    ensures l < |steps| && !TransitionBy(steps[l], w.token)
  {
    hide Next, Created, Works, Active;
    StepIsAcknowledged(w, m, trace, steps, k);
    StateAt(w, trace, steps, m);
    if TransitionBy(steps[l], w.token) {
      assert InWholeStep(w, m, trace, steps, l);
      StepIsAcknowledged(w, m, trace, steps, l);
      assert j <= l;
      NthNext(trace, steps, k);
      NthNext(trace, steps, l);
      Known(trace, steps, k);
      Known(trace, steps, l);
      WriterIsActive(trace[k], steps[k], trace[k + 1]);
      WriterIsActive(trace[l], steps[l], trace[l + 1]);
      RunSafety.RunForward(trace, steps, k, j);
      ActiveBetween(trace, steps, j, l, w.token);
    }
  }

  lemma SessionAfter(w: Worker, m: nat, trace: seq<Cluster>, steps: seq<Step>, k: nat)
    requires InWholeStep(w, m, trace, steps, k) && Applies(steps[k])
    ensures IsRun(trace, steps) && k < w.at[m + 1] <= |steps| < |trace| && AllLeave(steps, w.token, k + 1, w.at[m + 1])
    ensures w.token in trace[k + 1].sessions
  {
    hide Next, Created, Works, Active, Applies;
    StepIsAcknowledged(w, m, trace, steps, k);
    StateAt(w, trace, steps, m);
    RunLength(trace, steps);
    NthNext(trace, steps, k);
    Known(trace, steps, k);
    WriterIsActive(trace[k], steps[k], trace[k + 1]);
  }

  /** After the last transition of a completed step the session has the executor's graph. */
  lemma MemoryAfter(w: Worker, m: nat, trace: seq<Cluster>, steps: seq<Step>, k: nat, j: nat)
    requires InWholeStep(w, m, trace, steps, k) && k < j < |trace| && Applies(steps[k])
    requires (forall x :: k < x < j ==> x < |steps| && !Applies(steps[x])) && !Active(trace[j].db, w.token)
    ensures k + 1 < |trace| && Has(trace[k + 1], w.token, w.states[m + 1].nodes, false)
  {
    hide IsRun, Works, Active, Applies;
    SessionAfter(w, m, trace, steps, k);
    var hi := w.at[m + 1];
    forall l | k + 1 <= l < hi ensures !TransitionBy(steps[l], w.token) {
      LastOfStep(w, m, trace, steps, k, j, l);
    }
    hide TransitionBy;
    SessionStaysFor(trace, steps, w.token, k + 1, hi);
    MemoryIsTheGraph(w, trace, steps, m + 1);
  }

  // ---- The graph that is loaded ---------------------------------------------

  /** A closed memory under a live lease, and nothing missing under what has ended, is a closed graph. */
  lemma MemoryClosesGraph(c: Cluster, token: Id, memory: Nodes, root: Id)
    requires Has(c, token, memory, false) && Active(c.db, token) && RunSafety.MemoryAgrees(c, token) && HasItsRows(c, token)
    requires ChildrenClosed(memory) && Tree(memory, root)
    ensures ChildrenClosed(c.graph)
  {
    hide Collapse, ParentsAcyclic;
    forall x | x in c.graph && ParentTerminal(c.graph, x) ensures c.graph[x].Terminal() {
      assert x in memory;
      assert ParentTerminal(memory, x);
    }
  }

  /** An executor that started closed is closed after a step without a refusal. */
  lemma StatesAreClosed(w: Worker, trace: seq<Cluster>, steps: seq<Step>, i: nat)
    requires Works(w, trace, steps) && i < |w.states| && !w.states[i].loop.failed && SubtreesClosed(w.states[0].nodes)
    ensures SubtreesClosed(w.states[i].nodes)
  {
    WorkerRunsArePlain(w, trace, steps);
    hide Works, SubtreesClosed, Open, W.PlainRun;
    ClosedIsNoneOpen(w.states[0].nodes);
    ClosedIsNoneOpen(w.states[i].nodes);
    if p :| Open(w.states[i].nodes, p) { E.PlainOpensNothing(w.states, w.moves, i, p); }
  }

  lemma ClosedAfterStep(w: Worker, m: nat, trace: seq<Cluster>, steps: seq<Step>, k: nat, j: nat)
    requires InWholeStep(w, m, trace, steps, k) && Applies(steps[k]) && k < j <= |steps| < |trace| && Timely(trace, steps, j)
    requires (forall x :: k < x < j ==> !Applies(steps[x])) && !Active(trace[j].db, w.token)
    requires SubtreesClosed(w.states[0].nodes)
    ensures ChildrenClosed(trace[k + 1].graph)
  {
    hide Next, Created, Active, Applies, EndsWithItsRows, HasItsRows, Has, SubtreesClosed, Tree, RunSafety.RowsMirror, RunSafety.MemoryAgrees, Carries;
    hide ExecRuns.GoodRun, ExecInvariants.Inv;
    var nodes := w.states[m + 1].nodes;
    MemoryAfter(w, m, trace, steps, k, j);
    StatesAreClosed(w, trace, steps, m + 1);
    ClosureIsLocal(nodes);
    ExecRuns.RunKeepsTree(w.states, w.moves, m + 1);
    RunHasItsRows(trace, steps, k + 1, w.token);
    RunSafety.RunInv(trace, steps, k + 1);
    NthNext(trace, steps, k);
    Known(trace, steps, k);
    WriterIsActive(trace[k], steps[k], trace[k + 1]);
    MemoryClosesGraph(trace[k + 1], w.token, nodes, w.states[m + 1].book.root);
  }

  lemma {:induction false} LastApplied(steps: seq<Step>, j: nat) returns (k: nat)
    requires j <= |steps| && exists i :: 0 <= i < j && Applies(steps[i])
    ensures k < j && Applies(steps[k]) && forall x :: k < x < j ==> !Applies(steps[x])
  {
    if Applies(steps[j - 1]) { k := j - 1; } else { k := LastApplied(steps, j - 1); }
  }

  lemma {:induction false} GraphIsClosed(trace: seq<Cluster>, steps: seq<Step>, j: nat)
    requires IsRun(trace, steps) && j <= |steps| < |trace|
    requires Whole(trace, steps, j) && Timely(trace, steps, j) && WritersGone(trace, steps, j)
    ensures ChildrenClosed(trace[j].graph)
    decreases j
  {
    hide Next, Created, Applies, InWholeStep, EndsWithItsRows, Active, ChildrenClosed, SubtreesClosed, LoadGraph;
    if exists k :: 0 <= k < j && Applies(steps[k]) {
      var k := LastApplied(steps, j);
      var w, m :| InWholeStep(w, m, trace, steps, k);
      WriterOf(w, m, trace, steps, k);
      LoadsUnderLease(w, m, trace, steps, k);
      var at := w.at[0] - 1;
      WritersGoneAtLoad(trace, steps, at, w.token);
      GraphIsClosed(trace, steps, at);
      LoadedIsClosed(trace, steps, at);
      ClosedAfterStep(w, m, trace, steps, k, j);
      QuietStretchKeepsClosed(trace, steps, k + 1, j);
    } else {
      StartIsClosed(trace, steps);
      QuietStretchKeepsClosed(trace, steps, 0, j);
    }
  }

  lemma WriterOf(w: Worker, m: nat, trace: seq<Cluster>, steps: seq<Step>, k: nat)
    requires InWholeStep(w, m, trace, steps, k)
    ensures steps[k].Commits? && steps[k].token == w.token && |w.at| > 0 && |w.states| > 0 && m < |w.at|
  {
  }

  lemma StartIsClosed(trace: seq<Cluster>, steps: seq<Step>)
    requires IsRun(trace, steps)
    ensures ChildrenClosed(trace[0].graph)
  {
    hide Next;
    CreatedClosed(trace[0]);
  }

  /** What is loaded is closed if the graph is. */
  lemma LoadedIsClosed(trace: seq<Cluster>, steps: seq<Step>, i: nat)
    requires IsRun(trace, steps) && i < |steps| < |trace| && steps[i].Loads? && ChildrenClosed(trace[i].graph)
    ensures SubtreesClosed(LoadGraph(trace[i + 1].db))
  {
    hide Next, Created, LoadGraph, SubtreesClosed, RunSafety.RowsMirror, RunSafety.MemoryAgrees, ChildrenClosed;
    NthNext(trace, steps, i);
    RunSafety.RunInv(trace, steps, i);
    RunSafety.RunInv(trace, steps, i + 1);
    QuietKeepsClosed(trace[i], steps[i], trace[i + 1]);
    LoadedClosure(trace[i + 1]);
  }

  /** Recovery: if no step of a worker was cut short or refused, and whoever ended an action had
      every stored child of it in its graph, then whoever loads the run under a live lease finds no
      live node below a terminal one. */
  lemma LoadsAreClosed(trace: seq<Cluster>, steps: seq<Step>, i: nat)
    requires IsRun(trace, steps) && i < |steps| < |trace| && steps[i].Loads? && Active(trace[i].db, steps[i].token)
    requires Whole(trace, steps, i) && Timely(trace, steps, i)
    ensures SubtreesClosed(LoadGraph(trace[i + 1].db))
  {
    hide Next, Created, Applies, Active, LoadGraph, SubtreesClosed, ChildrenClosed, EndsWithItsRows, InWholeStep;
    WritersGoneAtLoad(trace, steps, i, steps[i].token);
    GraphIsClosed(trace, steps, i);
    LoadedIsClosed(trace, steps, i);
  }

  // ---- Steps cut short ------------------------------------------------------

  lemma CrashFollows(trace: seq<Cluster>, steps: seq<Step>, token: Id) returns (trace': seq<Cluster>, steps': seq<Step>)
    requires IsRun(trace, steps) && |trace| > |steps|
    ensures trace <= trace' && |trace'| > |steps'| && steps' == steps + [Crashes(token)] && IsRun(trace', steps')
    ensures trace'[|steps'|].db == trace[|steps|].db
  {
    hide Created;
    var c := trace[|steps|];
    RunLength(trace, steps);
    var c' := c.(sessions := c.sessions - {token});
    ExtendCluster(trace, steps, Crashes(token), c');
    trace', steps' := trace + [c'], steps + [Crashes(token)];
  }

  /** A step of a worker never fails a node for a lost prerequisite. */
  lemma WorkersOpenNothing(w: Worker, trace: seq<Cluster>, steps: seq<Step>, step: Exec.Step, s': Exec.Exec, p: Id)
    requires Works(w, trace, steps) && |w.states| == |w.moves| + 1 && Exec.Next(w.states[|w.moves|], step, s')
    ensures !E.Opens(w.states[|w.moves|], step, p)
  {
    WorkerRunsArePlain(w, trace, steps);
    assert E.ParentsReady(w.states[0].nodes);
    hide Works, E.PrerequisitesMet, Exec.Next, E.Opens, ExecRuns.GoodRun, W.Plain;
    E.RunKeepsReady(w.states, w.moves, |w.moves|);
    E.ReadyNeverOpens(w.states[|w.moves|], step, s', p);
  }

  lemma PrefixIsOrderly(a: Nodes, writes: seq<W.Write>, b: Nodes, m: nat)
    requires W.Orderly(a, writes, b, false, false) && m <= |writes|
    ensures W.Orderly(a, writes[..m], W.After(a, writes[..m]), false, false)
  {
    hide W.Orderly, W.After;
    if m < |writes| {
      W.OrderlyBefore(a, writes, b, false, false, m);
    } else {
      assert writes[..m] == writes;
      ExecCuts.OrderlyLeadsTo(a, writes, b, false);
    }
  }

  /** The worker sends the first `m` transitions of a step and crashes. */
  lemma CutAt(w: Worker, trace: seq<Cluster>, steps: seq<Step>, step: Exec.Step, s': Exec.Exec, order: seq<Id>, m: nat)
      returns (trace': seq<Cluster>, steps': seq<Step>, nodes: Nodes)
    requires Works(w, trace, steps) && UpToDate(w, trace, steps) && Active(trace[|steps|].db, w.token)
    requires |w.states| == |w.moves| + 1 && Exec.Next(w.states[|w.moves|], step, s') && !s'.loop.failed && W.Ordered(step, order)
    requires !step.AddNode? && m <= |W.Sent(w.states[|w.moves|], step, order)|
    ensures IsRun(trace', steps') && trace <= trace' && steps <= steps' && |trace'| > |steps'|
    ensures Answers(steps', w.token, |steps|, |steps'|) == W.Sent(w.states[|w.moves|], step, order)[..m]
    ensures nodes == W.After(w.states[|w.moves|].nodes, W.Sent(w.states[|w.moves|], step, order)[..m])
    ensures Has(trace'[|steps'|], w.token, nodes, false) && Active(trace'[|steps'|].db, w.token)
    ensures trace'[|steps'|].graph.Keys == trace[|steps|].graph.Keys && nodes.Keys == w.states[|w.moves|].nodes.Keys
  {
    hide Next, IsRun, ExecInvariants.Inv, Exec.Next, Has, W.Orderly, W.Sent, W.After, W.Ordered, Works, Active;
    var s := w.states[|w.moves|];
    WorksOnRuns(w, trace, steps);
    FirstGraph(w, trace, steps);
    MemoryIsTheGraph(w, trace, steps, |w.moves|);
    ExecRuns.RunInv(w.states, w.moves, |w.moves|);
    NeverAgain(w, trace, steps, step, s');
    if s.loop.failed { E.FailedStays(s, step, s'); }
    W.StepIsExplained(s, step, s', order);
    var sent := W.Sent(s, step, order);
    PrefixIsOrderly(s.nodes, sent, s'.nodes, m);
    nodes := W.After(s.nodes, sent[..m]);
    KeysStay(s.nodes, sent[..m], nodes);
    trace', steps' := CarryWrites(trace, steps, w.token, s.nodes, sent[..m], nodes, false);
    assert trace'[|steps|] == trace[|steps|];
    Stretch(trace', steps', w.token, |steps|, |steps'|, s.nodes, nodes, false, false, false);
  }

  /** A memory under a live lease with everything stored in it is the graph. */
  lemma WholeMemory(c: Cluster, token: Id, nodes: Nodes)
    requires RunSafety.ClusterInv(c) && Has(c, token, nodes, false) && Active(c.db, token) && c.graph.Keys == nodes.Keys
    ensures c.graph == nodes
  {
    assert RunSafety.MemoryAgrees(c, token);
    hide Collapse, RunSafety.RowsMirror;
  }

  /** Where recovery starts from an open graph, exactly: a worker with a closed graph, all stored
      rows in it and a live lease crashes after `m` of the transitions of a step. What the next
      worker loads is closed if and only if none of them had been sent or all. What is excepted
      are the steps that cancel every node of the run. */
  lemma CutLeavesOpenExactly(w: Worker, trace: seq<Cluster>, steps: seq<Step>, step: Exec.Step, s': Exec.Exec, order: seq<Id>, m: nat)
      returns (trace': seq<Cluster>, steps': seq<Step>)
    requires Works(w, trace, steps) && UpToDate(w, trace, steps) && Active(trace[|steps|].db, w.token)
    requires |w.states| == |w.moves| + 1 && Exec.Next(w.states[|w.moves|], step, s') && !s'.loop.failed && W.Ordered(step, order)
    requires !step.AddNode? && !step.ReturnByRoot? && !step.CancelAll? && m <= |W.Sent(w.states[|w.moves|], step, order)|
    requires var nodes := w.states[|w.moves|].nodes; SubtreesClosed(nodes) && NIL !in nodes && trace[|steps|].graph.Keys == nodes.Keys
    ensures IsRun(trace', steps') && trace <= trace' && steps < steps' && |trace'| > |steps'|
    ensures Answers(steps', w.token, |steps|, |steps'| - 1) == W.Sent(w.states[|w.moves|], step, order)[..m]
    ensures steps'[|steps'| - 1] == Crashes(w.token)
    ensures SubtreesClosed(LoadGraph(trace'[|steps'|].db)) <==> m == 0 || m == |W.Sent(w.states[|w.moves|], step, order)|
  {
    hide Next, IsRun, ExecInvariants.Inv, Exec.Next, Has, W.Sent, W.After, W.Ordered, Works, Active, SubtreesClosed, ChildrenClosed, LoadGraph;
    hide RunSafety.RowsMirror, RunSafety.MemoryAgrees, E.Opens;
    var s := w.states[|w.moves|];
    var t, u, nodes := CutAt(w, trace, steps, step, s', order, m);
    var c := t[|u|];
    trace', steps' := CrashFollows(t, u, w.token);
    AnswersStay(u, steps', w.token, |steps|, |u|);
    forall p ensures !E.Opens(s, step, p) { WorkersOpenNothing(w, trace, steps, step, s', p); }
    WorksOnRuns(w, trace, steps);
    ExecRuns.RunInv(w.states, w.moves, |w.moves|);
    ExecCuts.CutStepExactly(s, step, s', order, m);
    RunSafety.RunInv(t, u, |u|);
    WholeMemory(c, w.token, nodes);
    LoadedClosure(c);
    ClosureIsLocal(nodes);
  }

  lemma {:induction false} KeysStay(a: Nodes, writes: seq<W.Write>, b: Nodes)
    requires W.Orderly(a, writes, b, false, false)
    ensures a.Keys == b.Keys
    decreases |writes|
  {
    hide W.Permitted;
    if writes != [] { KeysStay(a[writes[0].id := writes[0].next], writes[1..], b); }
  }

  // ---- Such runs ------------------------------------------------------------

  /** What a session with a live lease has, and what is stored, where a run has got to. */
  ghost predicate At(trace: seq<Cluster>, steps: seq<Step>, token: Id, memory: Nodes, graph: Nodes) {
    && IsRun(trace, steps) && |trace| == |steps| + 1 && Timely(trace, steps, |steps|)
    && Has(trace[|steps|], token, memory, false) && Active(trace[|steps|].db, token) && trace[|steps|].graph == graph
  }

  /** The run goes on with one step, before which it was timely. */
  lemma Follows(trace: seq<Cluster>, steps: seq<Step>, step: Step, c': Cluster) returns (trace': seq<Cluster>, steps': seq<Step>)
    requires IsRun(trace, steps) && |trace| == |steps| + 1 && Timely(trace, steps, |steps|) && Next(trace[|steps|], step, c')
    ensures IsRun(trace', steps') && trace' == trace + [c'] && steps' == steps + [step]
    ensures Timely(trace', steps', |steps'|) <==> EndsWithItsRows(trace[|steps|], step)
  {
    hide Next, Created, EndsWithItsRows;
    ExtendCluster(trace, steps, step, c');
    trace', steps' := trace + [c'], steps + [step];
    assert trace'[|steps|] == trace[|steps|] && steps'[|steps|] == step;
    forall k | 0 <= k < |steps| ensures EndsWithItsRows(trace'[k], steps'[k]) {
      assert trace'[k] == trace[k] && steps'[k] == steps[k];
    }
  }

  lemma ClaimIsPossible(c: Cluster, token: Id) returns (c': Cluster)
    requires Created(c)
    ensures Next(c, Claims(token, 1), c') && c'.graph == c.graph == CollapseAll(c.graph) && c'.db.rows == c.db.rows && c'.db.root == c.db.root
    ensures token in c'.sessions && !c'.sessions[token].loaded && Active(c'.db, token)
  {
    assert !c.db.rows[c.db.root].status.Final();
    c' := SetSession(c, token, Session(false, map[], false)).(db := Claim(c.db, token, 1), used := c.used + {token});
  }

  lemma LoadIsPossible(c: Cluster, token: Id) returns (c': Cluster)
    requires RunSafety.RowsMirror(c) && token in c.sessions && !c.sessions[token].loaded && Active(c.db, token)
    ensures Next(c, Loads(token), c') && Has(c', token, CollapseAll(c.graph), false) && Active(c'.db, token)
    ensures c'.graph == CollapseAll(c.graph) && c'.db.root == c.db.root
  {
    RunSafety.LoadedMemory(c, token);
    hide RunSafety.RowsMirror, LoadGraph, CollapseAll;
    c' := Loaded(c, token);
  }

  /** A created run is claimed and loaded. */
  lemma FirstSession(c: Cluster, token: Id) returns (trace: seq<Cluster>, steps: seq<Step>)
    requires Created(c)
    ensures At(trace, steps, token, c.graph, c.graph) && trace[0] == c && trace[|steps|].db.root == c.db.root
  {
    var c1 := ClaimIsPossible(c, token);
    assert IsRun([c], []);
    hide Next, Created, IsRun, Active, RunSafety.RowsMirror, RunSafety.MemoryAgrees;
    trace, steps := Follows([c], [], Claims(token, 1), c1);
    RunSafety.RunInv(trace, steps, 1);
    var c2 := LoadIsPossible(c1, token);
    trace, steps := Follows(trace, steps, Loads(token), c2);
  }

  /** An acknowledged transition. */
  lemma CommitFollows(trace: seq<Cluster>, steps: seq<Step>, token: Id, memory: Nodes, graph: Nodes, id: Id, next: Node)
      returns (trace': seq<Cluster>, steps': seq<Step>)
    requires At(trace, steps, token, memory, graph) && id in memory && LegalCommit(memory[id], next)
    ensures IsRun(trace', steps') && |trace'| == |steps'| + 1 && |trace'| > |trace| && trace <= trace'
    ensures Has(trace'[|steps'|], token, memory[id := next], false) && Active(trace'[|steps'|].db, token)
    ensures trace'[|steps'|].graph == graph[id := next] && trace'[|steps'|].db.root == trace[|steps|].db.root
    ensures Timely(trace', steps', |steps'|) <==> (next.Terminal() ==> forall x :: x in graph && ChildOf(graph, x, id) ==> x in memory)
  {
    var c := trace[|steps|];
    RunSafety.RunInv(trace, steps, |steps|);
    CommitIsFenced(c, token, memory, id);
    hide RunSafety.ClusterInv, IsRun, Fenced, LegalCommit, Timely;
    var step := Commits(token, id, next, Acked);
    trace', steps' := Follows(trace, steps, step, Committed(c, token, id, next, Acked));
  }

  lemma CommitIsFenced(c: Cluster, token: Id, memory: Nodes, id: Id)
    requires RunSafety.ClusterInv(c) && Has(c, token, memory, false) && Active(c.db, token) && id in memory && !memory[id].Terminal()
    ensures Fenced(c.db, token, id, memory[id].attempt)
  {
    assert RunSafety.MemoryAgrees(c, token) && Mirrors(c.db.rows[id], memory[id]);
  }

  /** A running root adds a child row. */
  lemma InsertFollows(trace: seq<Cluster>, steps: seq<Step>, token: Id, memory: Nodes, graph: Nodes, id: Id, row: Row)
      returns (trace': seq<Cluster>, steps': seq<Step>)
    requires At(trace, steps, token, memory, graph) && id !in graph
    requires var root := trace[|steps|].db.root;
             root in memory && memory[root].state.Running? && row == NewRow(root, row.limit, row.imageKey, row.cacheKey)
    ensures At(trace', steps', token, memory, graph[id := GraphNode(row)]) && trace <= trace'
    ensures trace'[|steps'|].db.root == trace[|steps|].db.root && id in trace'[|steps'|].db.rows && trace'[|steps'|].db.rows[id] == row
  {
    var c := trace[|steps|];
    var root := c.db.root;
    RunSafety.RunInv(trace, steps, |steps|);
    RunningMayInsert(c, token, memory, root);
    hide RunSafety.MemoryAgrees, Mirrors, IsRun, CanInsert, GraphNode, Timely;
    var c' := c.(db := c.db.(rows := c.db.rows[id := row]), graph := graph[id := GraphNode(row)]);
    trace', steps' := Follows(trace, steps, Inserts(token, root, memory[root].attempt, id, row), c');
  }

  lemma RunningMayInsert(c: Cluster, token: Id, memory: Nodes, root: Id)
    requires RunSafety.ClusterInv(c) && Has(c, token, memory, false) && Active(c.db, token) && root == c.db.root
    requires root in memory && memory[root].state.Running?
    ensures CanInsert(c.db, token, root, memory[root].attempt)
  {
    assert RunSafety.MemoryAgrees(c, token) && Mirrors(c.db.rows[root], memory[root]);
  }

  /** The child joins the worker's graph. */
  lemma AddFollows(trace: seq<Cluster>, steps: seq<Step>, token: Id, memory: Nodes, graph: Nodes, id: Id)
      returns (trace': seq<Cluster>, steps': seq<Step>)
    requires At(trace, steps, token, memory, graph) && id !in memory && id in trace[|steps|].db.rows
    ensures At(trace', steps', token, memory[id := GraphNode(trace[|steps|].db.rows[id])], graph) && trace <= trace'
    ensures trace'[|steps'|].db.root == trace[|steps|].db.root
  {
    var c := trace[|steps|];
    hide IsRun, GraphNode, Timely;
    var c' := SetSession(c, token, c.sessions[token].(memory := memory[id := GraphNode(c.db.rows[id])]));
    trace', steps' := Follows(trace, steps, Adds(token, id), c');
  }

  /** The root of a created run is started. */
  lemma RootStarts(c: Cluster, token: Id) returns (trace: seq<Cluster>, steps: seq<Step>, running: Node)
    requires Created(c)
    ensures var graph := c.graph[c.db.root := running];
            At(trace, steps, token, graph, graph) && graph.Keys == {c.db.root} && running.state.Running? && running.spec.parent.None?
    ensures trace[0] == c && trace[|steps|].db.root == c.db.root
  {
    var root := c.db.root;
    var ready := c.graph[root].(state := Ready);
    running := Exec.StartedNode(ready);
    assert c.graph.Keys == {root} && LegalCommit(c.graph[root], ready) && LegalCommit(ready, running) && running.spec.parent.None?;
    trace, steps := FirstSession(c, token);
    hide Created, IsRun, Timely, LegalCommit;
    trace, steps := CommitFollows(trace, steps, token, c.graph, c.graph, root, ready);
    trace, steps := CommitFollows(trace, steps, token, c.graph[root := ready], c.graph[root := ready], root, running);
    assert c.graph[root := ready][root := running] == c.graph[root := running];
  }

  /** Both causes do occur, in every run as it is created: the root ends above a stored child and
      its worker crashes, before it has canceled the child or without ever having added it. What
      the next worker loads has a live node below a terminal one. */
  lemma SomeCrashLeavesOpen(c: Cluster, token: Id, child: Id, added: bool) returns (trace: seq<Cluster>, steps: seq<Step>)
    requires Created(c) && child != c.db.root
    ensures IsRun(trace, steps) && |trace| == |steps| + 1 > 1 && trace[0] == c && steps[|steps| - 1] == Crashes(token)
    ensures Timely(trace, steps, |steps| - 1) <==> added
    ensures !SubtreesClosed(LoadGraph(trace[|steps|].db))
  {
    var root := c.db.root;
    var running;
    trace, steps, running := RootStarts(c, token);
    var graph := c.graph[root := running];
    var row := NewRow(root, 1, [], []);
    var done := running.(state := Done);
    var node := GraphNode(row);
    assert LegalCommit(running, done) && node.spec.parent == Some(root) && !node.Terminal();
    hide Created, IsRun, Timely, LegalCommit, GraphNode, SubtreesClosed, LoadGraph, NewRow;
    trace, steps := InsertFollows(trace, steps, token, graph, graph, child, row);
    var memory := graph;
    if added {
      trace, steps := AddFollows(trace, steps, token, graph, graph[child := node], child);
      memory := graph[child := node];
    }
    trace, steps := CommitFollows(trace, steps, token, memory, graph[child := node], root, done);
    assert ChildOf(graph[child := node], child, root);
    var t, u := CrashFollows(trace, steps, token);
    SameTimely(trace, steps, t, u);
    RunSafety.RunInv(trace, steps, |steps|);
    OpenGraph(trace[|steps|], root, child);
    LoadGraphOf(trace[|steps|].db, t[|u|].db);
    trace, steps := t, u;
  }

  lemma LoadGraphOf(a: Database, b: Database)
    requires a == b
    ensures LoadGraph(a) == LoadGraph(b)
  {
  }

  lemma SameTimely(trace: seq<Cluster>, steps: seq<Step>, t: seq<Cluster>, u: seq<Step>)
    requires |trace| == |steps| + 1 && |t| == |u| + 1 && trace <= t && steps <= u
    ensures Timely(trace, steps, |steps|) <==> Timely(t, u, |steps|)
  {
    hide EndsWithItsRows;
    assert forall k :: 0 <= k < |steps| ==> t[k] == trace[k] && u[k] == steps[k];
  }

  lemma OpenGraph(c: Cluster, root: Id, child: Id)
    requires RunSafety.RowsMirror(c) && root in c.graph && c.graph[root].Terminal()
    requires child in c.graph && c.graph[child].spec.parent == Some(root) && !c.graph[child].Terminal()
    ensures !SubtreesClosed(LoadGraph(c.db))
  {
    hide RunSafety.RowsMirror, SubtreesClosed, LoadGraph;
    LoadedClosure(c);
    assert ParentTerminal(c.graph, child);
  }
}
