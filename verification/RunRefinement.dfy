/** Executors and the database together: the executor of a worker moves while every other worker,
    claim, expiry, cancellation and crash goes on, also between two transitions of one step. */
module RunRefinement {
  import opened Base
  import opened Graph
  import Exec
  import ExecInvariants
  import ExecRuns
  import ExecBounds
  import Reports = ExecReports
  import W = ExecWrites
  import opened RunStore
  import RunSafety
  import Validate

  // ---- A worker in a run of the cluster -------------------------------------

  /** One claim of the run with the executor it drives: the states and steps of the executor,
      the order of its closes, and where in the run of the cluster each state is reached. */
  datatype Worker = Worker(token: Id, states: seq<Exec.Exec>, moves: seq<Exec.Step>, orders: seq<seq<Id>>, at: seq<nat>)

  predicate TransitionBy(step: Step, token: Id) {
    step.Commits? && step.token == token
  }

  /** The transitions of a session in a stretch of the run, and how they were answered. */
  function Answers(steps: seq<Step>, token: Id, lo: nat, hi: nat): seq<W.Write>
    requires lo <= hi <= |steps|
    decreases hi - lo
  {
    if lo == hi then []
    else
      (if TransitionBy(steps[lo], token) then [W.Write(steps[lo].id, steps[lo].next, steps[lo].outcome.Acked?)] else [])
      + Answers(steps, token, lo + 1, hi)
  }

  /** The session is neither loaded nor extended nor ended by the step. */
  predicate Leaves(step: Step, token: Id) {
    step != Loads(token) && step != Crashes(token) && !(step.Adds? && step.token == token)
  }

  predicate AllLeave(steps: seq<Step>, token: Id, lo: nat, hi: nat) {
    forall k :: lo <= k < hi && k < |steps| ==> Leaves(steps[k], token)
  }

  /** Between `lo` and `hi` the session adds the row of a new child to its graph. */
  predicate CarriesAdd(step: Exec.Step, trace: seq<Cluster>, steps: seq<Step>, token: Id, lo: nat, hi: nat)
    requires step.AddNode? && lo <= hi <= |steps| < |trace|
  {
    && lo < hi && AllLeave(steps, token, lo, hi - 1) && Answers(steps, token, lo, hi - 1) == []
    && steps[hi - 1] == Adds(token, step.id)
    && var rows := trace[hi - 1].db.rows;
       step.id in rows && rows[step.id].caller == Some(step.parent) && step.node == GraphNode(rows[step.id])
  }

  /** Between `lo` and `hi` the database sees exactly the transitions of the step, in its order,
      and answers them as the step says; whatever anyone else does may happen in between. */
  predicate Carries(s: Exec.Exec, step: Exec.Step, order: seq<Id>, trace: seq<Cluster>, steps: seq<Step>, token: Id, lo: nat, hi: nat)
    requires lo <= hi <= |steps| < |trace|
  {
    if step.AddNode? then CarriesAdd(step, trace, steps, token, lo, hi)
    else W.Ordered(step, order) && AllLeave(steps, token, lo, hi) && Answers(steps, token, lo, hi) == W.Sent(s, step, order)
  }

  /** The worker's executor is started on the graph its session loaded, and the run of the
      cluster carries every step of it. */
  ghost predicate Works(w: Worker, trace: seq<Cluster>, steps: seq<Step>) {
    && IsRun(trace, steps) && ExecRuns.GoodRun(w.states, w.moves)
    && |w.orders| == |w.moves| && |w.at| == |w.states|
    && (forall i :: 0 <= i < |w.at| ==> 0 < w.at[i] <= |steps|)
    && (forall i :: 0 <= i < |w.moves| ==> w.at[i] <= w.at[i + 1])
    && steps[w.at[0] - 1] == Loads(w.token)
    && w.token in trace[w.at[0]].sessions && w.states[0].nodes == trace[w.at[0]].sessions[w.token].memory
    && forall i :: 0 <= i < |w.moves| ==>
         Carries(w.states[i], w.moves[i], w.orders[i], trace, steps, w.token, w.at[i], w.at[i + 1])
  }

  // ---- What a stretch of the run does to the session ------------------------

  /** The session has this graph in memory, and whether a write of it has failed. */
  predicate Has(c: Cluster, token: Id, memory: Nodes, failed: bool) {
    token in c.sessions && c.sessions[token] == Session(true, memory, failed)
  }

  lemma SessionStays(c: Cluster, step: Step, c': Cluster, token: Id)
    requires RunSafety.TokensKnown(c) && Next(c, step, c') && token in c.sessions && Leaves(step, token) && !TransitionBy(step, token)
    ensures token in c'.sessions && c'.sessions[token] == c.sessions[token]
  {
    hide Requested, Fenced, CanInsert, CanClaim, Transition, CancelRun, CanceledGraph, Reset, Renew, Release, LoadGraph;
  }

  lemma SessionWrites(c: Cluster, step: Step, c': Cluster, token: Id, memory: Nodes, failed: bool)
    requires Next(c, step, c') && TransitionBy(step, token) && Has(c, token, memory, failed)
    ensures !failed && step.id in memory
    ensures Has(c', token, if step.outcome.Acked? then memory[step.id := step.next] else memory, !step.outcome.Acked?)
    ensures !step.outcome.RolledBack? ==> Fenced(c.db, token, step.id, memory[step.id].attempt)
  {
    hide Requested, Fenced, Transition;
  }

  lemma Known(trace: seq<Cluster>, steps: seq<Step>, i: nat)
    requires IsRun(trace, steps) && i < |trace|
    ensures RunSafety.TokensKnown(trace[i])
  {
    RunSafety.RunInv(trace, steps, i);
    hide Next, Created, RunSafety.TokensKnown, RunSafety.MemoryAgrees, RunSafety.RowsMirror;
  }

  lemma NthNext(trace: seq<Cluster>, steps: seq<Step>, i: nat)
    requires IsRun(trace, steps) && i < |steps|
    ensures |trace| == |steps| + 1 && Next(trace[i], steps[i], trace[i + 1])
  {
    hide Next, Created;
  }

  /** Orderly transitions leave the session with the graph they lead to. */
  lemma {:induction false} Stretch(trace: seq<Cluster>, steps: seq<Step>, token: Id, lo: nat, hi: nat,
                                   a: Nodes, b: Nodes, failed: bool, refused: bool, again: bool)
    requires IsRun(trace, steps) && lo <= hi <= |steps| < |trace| && AllLeave(steps, token, lo, hi)
    requires Has(trace[lo], token, a, failed) && W.Orderly(a, Answers(steps, token, lo, hi), b, refused, again)
    ensures Has(trace[hi], token, b, failed || refused)
    decreases hi - lo
  {
    hide Next, IsRun, Has, W.Permitted;
    if lo < hi {
      NthNext(trace, steps, lo);
      assert Leaves(steps[lo], token);
      if TransitionBy(steps[lo], token) {
        SessionWrites(trace[lo], steps[lo], trace[lo + 1], token, a, failed);
        var w := Answers(steps, token, lo, hi)[0];
        assert Answers(steps, token, lo, hi)[1..] == Answers(steps, token, lo + 1, hi);
        if w.ok {
          Stretch(trace, steps, token, lo + 1, hi, a[w.id := w.next], b, false, refused, again);
        } else {
          Stretch(trace, steps, token, lo + 1, hi, a, b, true, false, again);
        }
      } else {
        assert Answers(steps, token, lo, hi) == Answers(steps, token, lo + 1, hi);
        Known(trace, steps, lo);
        HasStays(trace[lo], steps[lo], trace[lo + 1], token, a, failed);
        Stretch(trace, steps, token, lo + 1, hi, a, b, failed, refused, again);
      }
    }
  }

  lemma HasStays(c: Cluster, step: Step, c': Cluster, token: Id, memory: Nodes, failed: bool)
    requires RunSafety.TokensKnown(c) && Next(c, step, c') && Leaves(step, token) && !TransitionBy(step, token) && Has(c, token, memory, failed)
    ensures Has(c', token, memory, failed)
  {
    hide Next;
    SessionStays(c, step, c', token);
  }

  lemma AddsNode(c: Cluster, token: Id, id: Id, c': Cluster, memory: Nodes, failed: bool)
    requires Next(c, Adds(token, id), c') && Has(c, token, memory, failed)
    ensures !failed && id in c.db.rows && Has(c', token, memory[id := GraphNode(c.db.rows[id])], false)
  {
    hide GraphNode;
  }

  lemma LoadsGraph(c: Cluster, token: Id, c': Cluster)
    requires Next(c, Loads(token), c')
    ensures token in c'.sessions && c'.sessions[token].loaded && !c'.sessions[token].failed
    ensures c'.sessions[token].memory == LoadGraph(c'.db)
  {
    hide Reset, LoadGraph;
  }

  // ---- Memory refines the executor ------------------------------------------

  lemma FirstGraph(w: Worker, trace: seq<Cluster>, steps: seq<Step>)
    requires Works(w, trace, steps)
    ensures |trace| == |steps| + 1 && |w.states| == |w.moves| + 1 == |w.orders| + 1 == |w.at|
    ensures forall i :: 0 <= i < |w.at| ==> 0 < w.at[i] <= |steps|
    ensures Has(trace[w.at[0]], w.token, w.states[0].nodes, w.states[0].loop.failed)
  {
    hide Next, Carries, Created;
    NthNext(trace, steps, w.at[0] - 1);
    LoadsGraph(trace[w.at[0] - 1], w.token, trace[w.at[0]]);
    hide IsRun, LoadGraph, Tree, ExecRuns.IsRun, Exec.TimersArmed;
  }

  lemma StateAt(w: Worker, trace: seq<Cluster>, steps: seq<Step>, i: nat)
    requires Works(w, trace, steps) && i < |w.moves|
    ensures |trace| == |steps| + 1 && |w.states| == |w.moves| + 1 && w.at[i] <= w.at[i + 1] <= |steps|
    ensures IsRun(trace, steps)
    ensures Carries(w.states[i], w.moves[i], w.orders[i], trace, steps, w.token, w.at[i], w.at[i + 1])
    ensures ExecInvariants.Inv(w.states[i]) && Exec.Next(w.states[i], w.moves[i], w.states[i + 1])
  {
    hide Next, Created, Carries, ExecInvariants.Inv, Exec.Next, ExecRuns.GoodRun;
    ExecRuns.FirstState(w.states, w.moves);
    ExecRuns.RunInv(w.states, w.moves, i);
    ExecRuns.NthStep(w.states, w.moves, i);
  }

  lemma StepCarried(s: Exec.Exec, step: Exec.Step, s': Exec.Exec, order: seq<Id>,
                    trace: seq<Cluster>, steps: seq<Step>, token: Id, lo: nat, hi: nat)
    requires IsRun(trace, steps) && lo <= hi <= |steps| < |trace| && Carries(s, step, order, trace, steps, token, lo, hi)
    requires ExecInvariants.Inv(s) && Exec.Next(s, step, s') && Has(trace[lo], token, s.nodes, s.loop.failed)
    ensures Has(trace[hi], token, s'.nodes, s'.loop.failed)
  {
    hide Next, IsRun, ExecInvariants.Inv, Exec.Next, Has, W.Orderly, W.Sent, GraphNode;
    if step.AddNode? {
      AddCarried(s, step, s', trace, steps, token, lo, hi);
    } else {
      W.StepIsExplained(s, step, s', order);
      Stretch(trace, steps, token, lo, hi, s.nodes, s'.nodes, s.loop.failed, !s.loop.failed && s'.loop.failed, step.DispatchFailAgain?);
    }
  }

  lemma AddCarried(s: Exec.Exec, step: Exec.Step, s': Exec.Exec, trace: seq<Cluster>, steps: seq<Step>, token: Id, lo: nat, hi: nat)
    requires IsRun(trace, steps) && lo <= hi <= |steps| < |trace| && step.AddNode?
    requires CarriesAdd(step, trace, steps, token, lo, hi)
    requires Exec.Next(s, step, s') && Has(trace[lo], token, s.nodes, s.loop.failed)
    ensures Has(trace[hi], token, s'.nodes, s'.loop.failed)
  {
    hide Next, IsRun, Exec.Next, Has;
    W.NothingSent(s);
    Stretch(trace, steps, token, lo, hi - 1, s.nodes, s.nodes, s.loop.failed, false, false);
    NthNext(trace, steps, hi - 1);
    AddsNode(trace[hi - 1], token, step.id, trace[hi], s.nodes, s.loop.failed);
    W.AddedNode(s, step, s');
    assert step.node.spec.parent == Some(step.parent);
    assert step.node.(spec := step.node.spec.(parent := Some(step.parent))) == step.node;
  }

  /** Refinement: in every state of the executor its graph is the memory of its session, and it
      has stopped writing exactly when a write of the session has failed. */
  lemma {:induction false} MemoryIsTheGraph(w: Worker, trace: seq<Cluster>, steps: seq<Step>, i: nat)
    requires Works(w, trace, steps) && i < |w.states|
    ensures w.at[i] < |trace| && Has(trace[w.at[i]], w.token, w.states[i].nodes, w.states[i].loop.failed)
  {
    hide *;
    if i == 0 {
      FirstGraph(w, trace, steps);
    } else {
      FirstGraph(w, trace, steps);
      MemoryIsTheGraph(w, trace, steps, i - 1);
      StateAt(w, trace, steps, i - 1);
      StepCarried(w.states[i - 1], w.moves[i - 1], w.states[i], w.orders[i - 1], trace, steps, w.token, w.at[i - 1], w.at[i]);
    }
  }

  /** While the lease is live and no write has failed, the rows say what the executor's graph
      says. */
  lemma GraphIsStored(w: Worker, trace: seq<Cluster>, steps: seq<Step>, i: nat, id: Id)
    requires Works(w, trace, steps) && i < |w.states| && id in w.states[i].nodes && !w.states[i].loop.failed
    requires w.at[i] < |trace| && Active(trace[w.at[i]].db, w.token)
    ensures id in trace[w.at[i]].db.rows && Mirrors(trace[w.at[i]].db.rows[id], w.states[i].nodes[id])
  {
    hide Next, Created, ExecRuns.GoodRun, Carries, Mirrors, Active;
    MemoryIsTheGraph(w, trace, steps, i);
    RunSafety.LiveMemoryIsStored(trace, steps, w.at[i], w.token, id);
  }

  // ---- Answers --------------------------------------------------------------

  /** Where in a stretch the `m`-th transition of the session is. */
  lemma {:induction false} AnswerAt(steps: seq<Step>, token: Id, lo: nat, hi: nat, m: nat) returns (k: nat)
    requires lo <= hi <= |steps| && m < |Answers(steps, token, lo, hi)|
    ensures lo <= k < hi && TransitionBy(steps[k], token)
    ensures Answers(steps, token, lo, hi)[m] == W.Write(steps[k].id, steps[k].next, steps[k].outcome.Acked?)
    ensures Answers(steps, token, lo, k) == Answers(steps, token, lo, hi)[..m]
    decreases hi - lo
  {
    var here := TransitionBy(steps[lo], token);
    if here && m == 0 {
      k := lo;
    } else {
      k := AnswerAt(steps, token, lo + 1, hi, if here then m - 1 else m);
    }
  }

  /** Every transition the executor sends in step `i` is a transition of its session somewhere in
      between, asked for with the attempt number the executor has. If it is acknowledged, the
      lease was live and the row was where the executor believed it; if not, the executor has
      stopped writing. */
  lemma WritesAreFenced(w: Worker, trace: seq<Cluster>, steps: seq<Step>, i: nat, m: nat) returns (k: nat)
    requires Works(w, trace, steps) && i < |w.moves| && |w.states| == |w.moves| + 1 && |w.orders| == |w.moves|
    requires !w.moves[i].AddNode? && m < |W.Sent(w.states[i], w.moves[i], w.orders[i])|
    ensures |w.at| == |w.states| && w.at[i] <= k < w.at[i + 1] <= |steps| < |trace|
    ensures var x := W.Sent(w.states[i], w.moves[i], w.orders[i])[m];
            var found := W.Found(w.states[i], w.moves[i], w.orders[i], m);
            && steps[k].Commits? && steps[k].token == w.token && steps[k].id == x.id && steps[k].next == x.next
            && (x.ok <==> steps[k].outcome.Acked?)
            && Has(trace[k], w.token, found, false) && x.id in found
            && (x.ok ==> Fenced(trace[k].db, w.token, x.id, found[x.id].attempt))
            && (!x.ok ==> w.states[i + 1].loop.failed)
  {
    hide Next, IsRun, ExecInvariants.Inv, Exec.Next, Has, W.Orderly, W.Sent, W.Permitted, Fenced, Works;
    FirstGraph(w, trace, steps);
    MemoryIsTheGraph(w, trace, steps, i);
    StateAt(w, trace, steps, i);
    var s, s' := w.states[i], w.states[i + 1];
    var sent, refused, again := W.Sent(s, w.moves[i], w.orders[i]), !s.loop.failed && s'.loop.failed, w.moves[i].DispatchFailAgain?;
    W.StepIsExplained(s, w.moves[i], s', w.orders[i]);
    k := AnswerAt(steps, w.token, w.at[i], w.at[i + 1], m);
    W.OrderlyBefore(s.nodes, sent, s'.nodes, refused, again, m);
    W.OrderlyAt(s.nodes, sent, s'.nodes, refused, again, m);
    Stretch(trace, steps, w.token, w.at[i], k, s.nodes, W.After(s.nodes, sent[..m]), false, false, again);
    NthNext(trace, steps, k);
    SessionWrites(trace[k], steps[k], trace[k + 1], w.token, W.After(s.nodes, sent[..m]), false);
  }

  // ---- Results are stored ---------------------------------------------------

  lemma ClosingSends(s: Exec.Exec, step: Exec.Step, s': Exec.Exec, order: seq<Id>, t: Exec.TaskId)
    requires ExecInvariants.Inv(s) && Exec.Next(s, step, s') && Reports.Closes(s, step, s', t)
    ensures !step.AddNode? && s.tasks[t].node in s'.nodes
    ensures |W.Sent(s, step, order)| > 0 && W.Sent(s, step, order)[0] == W.Write(s.tasks[t].node, s'.nodes[s.tasks[t].node], true)
  {
    hide Exec.Next, Exec.LateNext, W.Sent;
    Exec.LateIs(s, step, s');
    FinishSends(s, step, s', order);
  }

  lemma FinishSends(s: Exec.Exec, step: Exec.Step, s': Exec.Exec, order: seq<Id>)
    requires ExecInvariants.Inv(s) && step.FinishTask? && Exec.LateNext(s, step, s') && Reports.Carries(s, step.t) && !s'.loop.failed
    ensures s.tasks[step.t].node in s'.nodes
    ensures |W.Sent(s, step, order)| > 0
    ensures W.Sent(s, step, order)[0] == W.Write(s.tasks[step.t].node, s'.nodes[s.tasks[step.t].node], true)
  {
    hide ExecInvariants.Inv, Exec.CommitAndClose, Exec.ClosesBelow, Exec.Outcome, Exec.AttemptStands, W.CloseWrites;
    Reports.StandsExactly(s, step.t);
    var id, next := s.tasks[step.t].node, Exec.OutcomeOf(s, step.t);
    if !next.state.Pending? {
      Reports.OutcomeIs(s, step.t);
      hide Reports.AttemptEnds, Exec.OutcomeOf;
      Reports.CommitStays(s, Exec.Leave(s, step.t), id, next, step.ok, step.c, "parent action completed");
      AcceptedIfWhole(Exec.Leave(s, step.t), id, next, step.ok, step.c);
    }
  }

  lemma AcceptedIfWhole(s: Exec.Exec, id: Id, next: Node, ok: bool, c: Exec.Closing)
    requires !Exec.CommitAndClose(s, id, next, ok, c, "parent action completed").loop.failed
    ensures Exec.Accepted(s, ok)
  {
  }

  /** What a runner returns reaches the row of its action: once the executor has closed the attempt,
      a transition of the session in between has stored the output and the message. A success, or
      a failure that may not be retried, is in the row of the table for good; another failure is
      stored as queued, with the time of the retry. */
  lemma ResultIsStored(w: Worker, trace: seq<Cluster>, steps: seq<Step>, k: nat, i: nat, l: nat) returns (at: nat)
    requires Works(w, trace, steps) && k < i < |w.moves| && |w.states| == |w.at| == |w.moves| + 1 && |w.orders| == |w.moves|
    requires w.moves[k].Return? && Reports.Closes(w.states[i], w.moves[i], w.states[i + 1], w.moves[k].t)
    requires w.at[i + 1] <= l < |trace|
    ensures w.at[i] < at <= w.at[i + 1] && w.moves[k].t in w.states[k].tasks
    ensures var id, f := w.states[k].tasks[w.moves[k].t].node, w.moves[k].failure;
            && id in trace[at].db.rows && id in trace[l].db.rows && id in w.states[i].nodes
            && var row := trace[at].db.rows[id];
               var n := w.states[i].nodes[id];
               && row.output == w.moves[k].output && row.error == (if f.None? then "" else f.value.message)
               && (f.None? ==> row.status.RowSucceeded?)
               && (f.Some? ==> row.failures == n.failures + 1)
               && (f.Some? ==> if f.value.cacheable || n.failures + 1 >= Max(n.spec.maxAttempts, 1) then row.status.RowFailed?
                              else row.status.RowQueued?
                                   && row.nextAttemptAt == Some(w.states[i].loop.now + Exec.Backoff(n.failures + 1)))
               && (row.status.Final() ==> trace[l].db.rows[id] == row)
  {
    hide Next, Created, ExecInvariants.Inv, Exec.Next, ExecRuns.GoodRun, Works, W.Sent, Reports.Closes, Has, Fenced;
    var s, s', t := w.states[i], w.states[i + 1], w.moves[k].t;
    WorksOnRuns(w, trace, steps);
    StateAt(w, trace, steps, i);
    Reports.ClosedAttempt(w.states, w.moves, k, i);
    ExecRuns.RunInv(w.states, w.moves, i);
    ClosingSends(s, w.moves[i], s', w.orders[i], t);
    var c := WritesAreFenced(w, trace, steps, i, 0);
    NthNext(trace, steps, c);
    RunSafety.CommitStores(trace[c], steps[c], trace[c + 1]);
    at := c + 1;
    BackoffIsPositive(s.nodes[s.tasks[t].node].failures + 1);
    var id := s.tasks[t].node;
    RowStays(trace, steps, at, l, id);
  }

  lemma RowStays(trace: seq<Cluster>, steps: seq<Step>, i: nat, j: nat, id: Id)
    requires IsRun(trace, steps) && i <= j < |trace| && id in trace[i].db.rows
    ensures id in trace[j].db.rows && (trace[i].db.rows[id].status.Final() ==> trace[j].db.rows[id] == trace[i].db.rows[id])
  {
    hide Next, Created;
    RunSafety.RunForward(trace, steps, i, j);
  }

  lemma BackoffIsPositive(failures: int)
    ensures Exec.Backoff(failures) > 0
  {
    PowIsPositive(Min(Max(failures - 1, 0), 6));
  }

  lemma PowIsPositive(n: nat)
    ensures Exec.Pow2(n) > 0
  {
  }

  // ---- Each attempt runs once -----------------------------------------------

  lemma HandsSends(s: Exec.Exec, step: Exec.Step, order: seq<Id>, id: Id)
    requires ExecBounds.Hands(s, step, id)
    ensures id in s.nodes && s.nodes[id].state.Ready? && !step.AddNode?
    ensures W.Sent(s, step, order) == [W.Write(id, Exec.StartedNode(s.nodes[id]), true)] && W.Found(s, step, order, 0) == s.nodes
  {
  }

  lemma HandedAt(w: Worker, trace: seq<Cluster>, steps: seq<Step>, i: nat, id: Id) returns (k: nat)
    requires Works(w, trace, steps) && i < |w.moves| < |w.states| && ExecBounds.Hands(w.states[i], w.moves[i], id)
    ensures IsRun(trace, steps) && k < |steps| < |trace| && steps[k].Commits? && steps[k].token == w.token
    ensures id in w.states[i].nodes && RunSafety.Hands(trace[k], steps[k], id, w.states[i].nodes[id].attempt + 1)
  {
    hide Works, W.Sent, W.Found, IsRun, ExecBounds.Hands;
    FirstGraph(w, trace, steps);
    StateAt(w, trace, steps, i);
    HandsSends(w.states[i], w.moves[i], w.orders[i], id);
    k := WritesAreFenced(w, trace, steps, i, 0);
  }

  /** Over all workers that ever drive the run, no two hand the same attempt of a node to a
      runner. */
  lemma WorkersNeverRunTheSameAttempt(a: Worker, b: Worker, trace: seq<Cluster>, steps: seq<Step>, i: nat, j: nat, id: Id)
    requires Works(a, trace, steps) && Works(b, trace, steps) && a.token != b.token
    requires i < |a.moves| < |a.states| && ExecBounds.Hands(a.states[i], a.moves[i], id)
    requires j < |b.moves| < |b.states| && ExecBounds.Hands(b.states[j], b.moves[j], id)
    ensures id in a.states[i].nodes && id in b.states[j].nodes
    ensures a.states[i].nodes[id].attempt != b.states[j].nodes[id].attempt
  {
    hide *;
    var k := HandedAt(a, trace, steps, i, id);
    var l := HandedAt(b, trace, steps, j, id);
    var first, second := a.states[i].nodes[id].attempt + 1, b.states[j].nodes[id].attempt + 1;
    if k < l { RunSafety.EachAttemptRunsOnce(trace, steps, k, l, id, first, second); }
    if l < k { RunSafety.EachAttemptRunsOnce(trace, steps, l, k, id, second, first); }
  }

  // ---- No node is committed twice -------------------------------------------

  /** Executors of workers run graphs without prerequisites. */
  lemma WorkerRunsArePlain(w: Worker, trace: seq<Cluster>, steps: seq<Step>)
    requires Works(w, trace, steps)
    ensures W.PlainRun(w.states, w.moves)
  {
    hide Next, Created, ExecRuns.GoodRun, W.Sent;
    FirstGraph(w, trace, steps);
    NthNext(trace, steps, w.at[0] - 1);
    LoadsGraph(trace[w.at[0] - 1], w.token, trace[w.at[0]]);
    forall k | 0 <= k < |w.moves| && w.moves[k].AddNode? ensures w.moves[k].node.spec.prerequisites == [] {
      assert Carries(w.states[k], w.moves[k], w.orders[k], trace, steps, w.token, w.at[k], w.at[k + 1]);
    }
  }

  /** So none of their transitions is of a node that has ended: the store never has to refuse one
      for that reason. */
  lemma WorkersNeverRecommit(w: Worker, trace: seq<Cluster>, steps: seq<Step>, i: nat, m: nat)
    requires Works(w, trace, steps) && i < |w.moves| && |w.states| == |w.moves| + 1 && |w.orders| == |w.moves|
    requires !w.moves[i].AddNode? && m < |W.Sent(w.states[i], w.moves[i], w.orders[i])|
    ensures var x := W.Sent(w.states[i], w.moves[i], w.orders[i])[m];
            var found := W.Found(w.states[i], w.moves[i], w.orders[i], m);
            x.id in found && !found[x.id].Terminal()
  {
    WorkerRunsArePlain(w, trace, steps);
    StateAt(w, trace, steps, i);
    hide Works, W.PlainRun, W.Sent, W.Found;
    W.PlainRunNeverRecommits(w.states, w.moves, i, w.orders[i], m);
  }

  // ---- Every step can be carried --------------------------------------------

  /** While the lease is live, a legal transition can be acknowledged, and any can be refused. */
  lemma TransitionIsPossible(c: Cluster, token: Id, memory: Nodes, w: W.Write) returns (step: Step, c': Cluster)
    requires RunSafety.ClusterInv(c) && Has(c, token, memory, false) && Active(c.db, token)
    requires w.id in memory && LegalCommit(memory[w.id], w.next)
    ensures Next(c, step, c') && TransitionBy(step, token)
    ensures step.id == w.id && step.next == w.next && (step.outcome.Acked? <==> w.ok)
    ensures Has(c', token, if w.ok then memory[w.id := w.next] else memory, !w.ok) && Active(c'.db, token)
    ensures c'.graph.Keys == c.graph.Keys
  {
    assert RunSafety.MemoryAgrees(c, token) && Mirrors(c.db.rows[w.id], memory[w.id]);
    hide RunSafety.ClusterInv, RunSafety.MemoryAgrees, LegalCommit;
    var outcome := if w.ok then Acked else RolledBack;
    step, c' := Commits(token, w.id, w.next, outcome), Committed(c, token, w.id, w.next, outcome);
  }

  lemma ExtendCluster(trace: seq<Cluster>, steps: seq<Step>, step: Step, c': Cluster)
    requires IsRun(trace, steps) && Next(trace[|steps|], step, c')
    ensures IsRun(trace + [c'], steps + [step])
  {
    hide Next, Created;
    var t, u := trace + [c'], steps + [step];
    forall i | 0 <= i < |u| ensures Next(t[i], u[i], t[i + 1]) {
      if i < |steps| { assert Next(trace[i], steps[i], trace[i + 1]); }
    }
  }

  /** The run goes on with these transitions of the session, and nothing else. */
  lemma {:induction false} CarryWrites(trace: seq<Cluster>, steps: seq<Step>, token: Id, a: Nodes, writes: seq<W.Write>, b: Nodes, refused: bool)
      returns (trace': seq<Cluster>, steps': seq<Step>)
    requires IsRun(trace, steps) && |trace| > |steps| && Has(trace[|steps|], token, a, false) && Active(trace[|steps|].db, token)
    requires W.Orderly(a, writes, b, refused, false)
    ensures IsRun(trace', steps') && trace <= trace' && steps <= steps' && |trace'| > |steps'|
    ensures AllLeave(steps', token, |steps|, |steps'|) && Answers(steps', token, |steps|, |steps'|) == writes
    ensures Active(trace'[|steps'|].db, token) && trace'[|steps'|].graph.Keys == trace[|steps|].graph.Keys
    decreases |writes|
  {
    hide Next, IsRun, Has, Active, LegalCommit;
    if writes == [] {
      trace', steps' := trace, steps;
    } else {
      var w := writes[0];
      RunLength(trace, steps);
      RunSafety.RunInv(trace, steps, |steps|);
      var step, c' := TransitionIsPossible(trace[|steps|], token, a, w);
      ExtendCluster(trace, steps, step, c');
      var t, u := trace + [c'], steps + [step];
      RunLength(t, u);
      if w.ok {
        trace', steps' := CarryWrites(t, u, token, a[w.id := w.next], writes[1..], b, refused);
        assert steps'[|steps|] == step;
        assert Answers(steps', token, |steps|, |steps'|) == [w] + Answers(steps', token, |steps| + 1, |steps'|);
      } else {
        trace', steps' := t, u;
        assert Answers(u, token, |steps| + 1, |u|) == [];
      }
    }
  }

  lemma RunLength(trace: seq<Cluster>, steps: seq<Step>)
    requires IsRun(trace, steps)
    ensures |trace| == |steps| + 1
  {
  }

  /** What a stretch answers and carries does not depend on what comes after it. */
  lemma {:induction false} AnswersStay(steps: seq<Step>, steps': seq<Step>, token: Id, lo: nat, hi: nat)
    requires lo <= hi <= |steps| && steps <= steps'
    ensures Answers(steps', token, lo, hi) == Answers(steps, token, lo, hi)
    ensures AllLeave(steps, token, lo, hi) ==> AllLeave(steps', token, lo, hi)
    decreases hi - lo
  {
    if lo < hi { AnswersStay(steps, steps', token, lo + 1, hi); }
  }

  lemma CarriesStays(s: Exec.Exec, step: Exec.Step, order: seq<Id>, trace: seq<Cluster>, steps: seq<Step>,
                     trace': seq<Cluster>, steps': seq<Step>, token: Id, lo: nat, hi: nat)
    requires lo <= hi <= |steps| < |trace| && Carries(s, step, order, trace, steps, token, lo, hi)
    requires trace <= trace' && steps <= steps' && |trace'| > |steps'|
    ensures Carries(s, step, order, trace', steps', token, lo, hi)
  {
    hide W.Sent, W.Ordered;
    AnswersStay(steps, steps', token, lo, hi);
    if lo < hi { AnswersStay(steps, steps', token, lo, hi - 1); }
  }

  /** The run of the cluster so far has carried everything the executor has done, and no more. */
  predicate UpToDate(w: Worker, trace: seq<Cluster>, steps: seq<Step>) {
    |w.at| > 0 && w.at[|w.at| - 1] == |steps| < |trace|
  }

  function OneMore(w: Worker, s': Exec.Exec, step: Exec.Step, order: seq<Id>, at: nat): Worker {
    w.(states := w.states + [s'], moves := w.moves + [step], orders := w.orders + [order], at := w.at + [at])
  }

  lemma WorksOn(w: Worker, trace: seq<Cluster>, steps: seq<Step>, trace': seq<Cluster>, steps': seq<Step>,
                s': Exec.Exec, step: Exec.Step, order: seq<Id>)
    requires Works(w, trace, steps) && UpToDate(w, trace, steps)
    requires IsRun(trace', steps') && trace <= trace' && steps <= steps' && |trace'| > |steps'|
    requires |w.states| > |w.moves| && Exec.Next(w.states[|w.moves|], step, s')
    requires Carries(w.states[|w.moves|], step, order, trace', steps', w.token, |steps|, |steps'|)
    ensures Works(OneMore(w, s', step, order, |steps'|), trace', steps')
  {
    hide IsRun, Next, Exec.Next, Carries;
    FirstGraph(w, trace, steps);
    ExecRuns.ExtendRun(w.states, w.moves, step, s');
    hide ExecRuns.GoodRun;
    var w' := OneMore(w, s', step, order, |steps'|);
    forall i | 0 <= i < |w'.moves|
      ensures Carries(w'.states[i], w'.moves[i], w'.orders[i], trace', steps', w.token, w'.at[i], w'.at[i + 1])
    {
      if i < |w.moves| {
        CarriesStays(w.states[i], w.moves[i], w.orders[i], trace, steps, trace', steps', w.token, w.at[i], w.at[i + 1]);
      }
    }
  }

  /** The row of the child a task asks its executor to add. */
  predicate RowStored(db: Database, step: Exec.Step)
    requires step.AddNode?
  {
    step.id in db.rows && db.rows[step.id].caller == Some(step.parent) && step.node == GraphNode(db.rows[step.id])
  }

  /** Nothing an executor may do is lost in the composition: while its lease is live, every step
      of it is carried by some run of the cluster, the addition of a node once its row is stored. */
  lemma EveryStepIsCarried(w: Worker, trace: seq<Cluster>, steps: seq<Step>, step: Exec.Step, s': Exec.Exec, order: seq<Id>)
      returns (trace': seq<Cluster>, steps': seq<Step>)
    requires Works(w, trace, steps) && UpToDate(w, trace, steps) && Active(trace[|steps|].db, w.token)
    requires |w.states| > |w.moves| && Exec.Next(w.states[|w.moves|], step, s') && W.Ordered(step, order)
    requires step.AddNode? ==> RowStored(trace[|steps|].db, step)
    ensures trace <= trace' && steps <= steps' && Works(OneMore(w, s', step, order, |steps'|), trace', steps')
    ensures UpToDate(OneMore(w, s', step, order, |steps'|), trace', steps') && Active(trace'[|steps'|].db, w.token)
  {
    hide IsRun, Next, Exec.Next, Works, Active, W.Orderly, W.Sent, W.Ordered, Has, RowStored, CarriesAdd;
    var s := w.states[|w.moves|];
    FirstGraph(w, trace, steps);
    MemoryIsTheGraph(w, trace, steps, |w.moves|);
    WorksOnRuns(w, trace, steps);
    ExecRuns.RunInv(w.states, w.moves, |w.moves|);
    if step.AddNode? {
      trace', steps' := CarryAdd(trace, steps, w.token, s, step, s');
    } else {
      W.StepIsExplained(s, step, s', order);
      if s.loop.failed {
        trace', steps' := trace, steps;
      } else {
        NeverAgain(w, trace, steps, step, s');
        trace', steps' := CarryWrites(trace, steps, w.token, s.nodes, W.Sent(s, step, order), s'.nodes, s'.loop.failed);
      }
    }
    assert Carries(s, step, order, trace', steps', w.token, |steps|, |steps'|);
    WorksOn(w, trace, steps, trace', steps', s', step, order);
  }

  lemma CarryAdd(trace: seq<Cluster>, steps: seq<Step>, token: Id, s: Exec.Exec, step: Exec.Step, s': Exec.Exec)
      returns (trace': seq<Cluster>, steps': seq<Step>)
    requires IsRun(trace, steps) && |trace| > |steps| && Has(trace[|steps|], token, s.nodes, s.loop.failed) && Active(trace[|steps|].db, token)
    requires Exec.Next(s, step, s') && step.AddNode? && RowStored(trace[|steps|].db, step)
    ensures IsRun(trace', steps') && trace <= trace' && steps <= steps' && |trace'| > |steps'|
    ensures CarriesAdd(step, trace', steps', token, |steps|, |steps'|) && Active(trace'[|steps'|].db, token)
  {
    var c := trace[|steps|];
    var c' := AddIsPossible(c, token, s, step, s');
    hide Next, IsRun, Exec.Next, Has;
    RunLength(trace, steps);
    ExtendCluster(trace, steps, Adds(token, step.id), c');
    trace', steps' := trace + [c'], steps + [Adds(token, step.id)];
  }

  lemma AddIsPossible(c: Cluster, token: Id, s: Exec.Exec, step: Exec.Step, s': Exec.Exec) returns (c': Cluster)
    requires Has(c, token, s.nodes, s.loop.failed) && Active(c.db, token)
    requires Exec.Next(s, step, s') && step.AddNode? && step.id in c.db.rows
    ensures Next(c, Adds(token, step.id), c') && Active(c'.db, token)
  {
    hide GraphNode;
    c' := SetSession(c, token, c.sessions[token].(memory := c.sessions[token].memory[step.id := GraphNode(c.db.rows[step.id])]));
  }

  lemma WorksOnRuns(w: Worker, trace: seq<Cluster>, steps: seq<Step>)
    requires Works(w, trace, steps)
    ensures IsRun(trace, steps) && ExecRuns.GoodRun(w.states, w.moves)
  {
  }

  /** A graph without prerequisites is never failed again. */
  lemma NeverAgain(w: Worker, trace: seq<Cluster>, steps: seq<Step>, step: Exec.Step, s': Exec.Exec)
    requires Works(w, trace, steps) && |w.states| == |w.moves| + 1 && Exec.Next(w.states[|w.moves|], step, s')
    ensures !step.DispatchFailAgain?
  {
    WorkerRunsArePlain(w, trace, steps);
    hide Works;
    W.RunStaysPlain(w.states, w.moves, |w.moves|);
    hide W.PlainRun;
  }

  // ---- What a worker starts from --------------------------------------------

  /** Every load starts a worker: whatever crashes and cancellations did before, the graph loaded is
      one its executor runs. */
  lemma EveryLoadStartsAWorker(trace: seq<Cluster>, steps: seq<Step>, i: nat, now: Time) returns (w: Worker)
    requires IsRun(trace, steps) && i < |steps| && steps[i].Loads?
    ensures Works(w, trace, steps) && w.token == steps[i].token && w.moves == [] && w.at == [i + 1]
    ensures |w.states| == 1 && w.states[0].nodes == LoadGraph(trace[i + 1].db) && w.states[0].loop.now == now
  {
    hide Next, Created, LoadGraph, Tree, Carries;
    NthNext(trace, steps, i);
    LoadsGraph(trace[i], steps[i].token, trace[i + 1]);
    RunSafety.LoadedGraphsAreAccepted(trace, steps, i + 1);
    var nodes, root := LoadGraph(trace[i + 1].db), trace[i + 1].db.root;
    var timers := set id | id in nodes :: Exec.TimerFor(nodes, id);
    var s := Exec.Start(nodes, root, now, timers);
    assert Exec.TimersArmed(nodes, timers, now);
    ExecRuns.StartIsRun(s);
    w := Worker(steps[i].token, [s], [], [], [i + 1]);
  }
}
