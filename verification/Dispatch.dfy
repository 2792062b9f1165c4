/** What a scheduling pass makes of the pending nodes, whatever order it looks at them in. */
module Dispatch {
  import opened Base
  import opened Graph
  import opened Exec
  import opened ExecRuns

  // ---- The nodes a pass must fail -------------------------------------------

  /** `path` leads along prerequisites of due nodes to a prerequisite that is lost. */
  ghost predicate DoomPath(nodes: Nodes, now: Time, path: seq<Id>) {
    && |path| >= 1
    && (forall i :: 0 <= i < |path| ==> path[i] in nodes && Due(nodes[path[i]], now))
    && (forall i :: 0 <= i < |path| - 1 ==> path[i + 1] in nodes[path[i]].spec.prerequisites)
    && exists p :: p in nodes[path[|path| - 1]].spec.prerequisites && Lost(nodes, p)
  }

  /** A due node that has a lost prerequisite, or depends on such a node. */
  ghost predicate Doomed(nodes: Nodes, now: Time, id: Id) {
    exists path :: DoomPath(nodes, now, path) && path[0] == id
  }

  ghost predicate ClosedUnderDoom(nodes: Nodes, now: Time, s: set<Id>) {
    forall id, p :: id in nodes && Due(nodes[id], now) && p in nodes[id].spec.prerequisites && (Lost(nodes, p) || p in s)
      ==> id in s
  }

  ghost function DoomedSet(nodes: Nodes, now: Time): set<Id> {
    set id | id in nodes && Doomed(nodes, now, id)
  }

  lemma DoomStarts(nodes: Nodes, now: Time, id: Id, p: Id)
    requires id in nodes && Due(nodes[id], now) && p in nodes[id].spec.prerequisites
    requires Lost(nodes, p) || Doomed(nodes, now, p)
    ensures Doomed(nodes, now, id)
  {
    if Lost(nodes, p) {
      assert DoomPath(nodes, now, [id]);
    } else {
      var path :| DoomPath(nodes, now, path) && path[0] == p;
      assert DoomPath(nodes, now, [id] + path);
    }
  }

  /** The doomed nodes are the least set closed under "due with a lost or doomed prerequisite". */
  lemma DoomedIsLeast(nodes: Nodes, now: Time, s: set<Id>)
    ensures ClosedUnderDoom(nodes, now, DoomedSet(nodes, now))
    ensures ClosedUnderDoom(nodes, now, s) ==> DoomedSet(nodes, now) <= s
  {
    forall id, p | id in nodes && Due(nodes[id], now) && p in nodes[id].spec.prerequisites
                   && (Lost(nodes, p) || p in DoomedSet(nodes, now))
      ensures id in DoomedSet(nodes, now)
    {
      DoomStarts(nodes, now, id, p);
    }
    if ClosedUnderDoom(nodes, now, s) {
      forall id | id in DoomedSet(nodes, now) ensures id in s {
        var path :| DoomPath(nodes, now, path) && path[0] == id;
        DoomPathStaysIn(nodes, now, path, s);
      }
    }
  }

  lemma DoomTail(nodes: Nodes, now: Time, path: seq<Id>)
    requires DoomPath(nodes, now, path) && |path| > 1
    ensures DoomPath(nodes, now, path[1..])
    ensures path[0] in nodes && path[1] in nodes[path[0]].spec.prerequisites
  {
    var rest := path[1..];
    forall i | 0 <= i < |rest| - 1 ensures rest[i + 1] in nodes[rest[i]].spec.prerequisites {
      assert path[i + 1 + 1] in nodes[path[i + 1]].spec.prerequisites;
    }
    assert path[0 + 1] in nodes[path[0]].spec.prerequisites;
  }

  lemma {:induction false} DoomPathStaysIn(nodes: Nodes, now: Time, path: seq<Id>, s: set<Id>)
    requires DoomPath(nodes, now, path) && ClosedUnderDoom(nodes, now, s)
    ensures path[0] in s
    decreases |path|
  {
    assert path[0] in nodes && Due(nodes[path[0]], now);
    if |path| > 1 {
      DoomTail(nodes, now, path);
      DoomPathStaysIn(nodes, now, path[1..], s);
    }
  }

  /** More nodes are doomed the later it is. */
  lemma DoomGrows(nodes: Nodes, early: Time, late: Time, id: Id)
    requires early <= late && Doomed(nodes, early, id)
    ensures Doomed(nodes, late, id)
  {
    var path :| DoomPath(nodes, early, path) && path[0] == id;
    assert DoomPath(nodes, late, path);
  }

  // ---- What a pass has done so far ------------------------------------------

  predicate Launchable(nodes: Nodes, now: Time, id: Id)
    requires id in nodes
  {
    Due(nodes[id], now) && AllDone(nodes, nodes[id].spec.prerequisites)
  }

  ghost predicate NodeReached(before: Nodes, now: Time, id: Id, n: Node)
    requires id in before
  {
    || n == before[id]
    || (n == FailedPrerequisite(before[id]) && Doomed(before, now, id))
    || (n == MadeReady(before[id]) && Launchable(before, now, id))
  }

  /** Every node is untouched, failed and doomed, or ready and launchable by `now`. */
  ghost predicate Reached(before: Nodes, now: Time, after: Nodes) {
    after.Keys == before.Keys && forall id :: id in before ==> NodeReached(before, now, id, after[id])
  }

  lemma ReachedLater(before: Nodes, early: Time, late: Time, after: Nodes)
    requires early <= late && Reached(before, early, after)
    ensures Reached(before, late, after)
  {
    forall id | id in before ensures NodeReached(before, late, id, after[id]) {
      assert NodeReached(before, early, id, after[id]);
      if Doomed(before, early, id) { DoomGrows(before, early, late, id); }
    }
  }

  lemma LostWasDoomed(before: Nodes, now: Time, after: Nodes, p: Id)
    requires Reached(before, now, after) && Lost(after, p)
    ensures Lost(before, p) || Doomed(before, now, p)
  {
    if p in before { assert NodeReached(before, now, p, after[p]); }
  }

  lemma DoneWasDone(before: Nodes, now: Time, after: Nodes, prerequisites: seq<Id>)
    requires Reached(before, now, after)
    ensures AllDone(after, prerequisites) <==> AllDone(before, prerequisites)
  {
    forall p | p in before ensures after[p].state.Done? <==> before[p].state.Done? {
      assert NodeReached(before, now, p, after[p]);
    }
  }

  predicate Dispatching(step: Step) {
    DispatchStep(step) || step.Tick?
  }

  lemma DispatchReaches(before: Nodes, s: Exec, step: Step, s': Exec)
    requires Dispatching(step) && Next(s, step, s') && Reached(before, s.loop.now, s.nodes)
    ensures Reached(before, s'.loop.now, s'.nodes)
  {
    hide Next, Reached;
    if step.Tick? {
      TickIs(s, step, s');
      ReachedLater(before, s.loop.now, s'.loop.now, s.nodes);
    } else {
      DispatchIs(s, step, s');
      PassReaches(before, s, step, s');
    }
  }

  lemma TickIs(s: Exec, step: Step, s': Exec)
    requires Next(s, step, s') && step.Tick?
    ensures s.loop.now <= s'.loop.now && s'.nodes == s.nodes
  {
    hide LoopNext, DispatchNext, EarlyNext, LateNext, CallNext, CloseNext, AddNext;
  }

  lemma FailReaches(before: Nodes, s: Exec, id: Id, p: Id)
    requires CanFailPending(s, id, p) && Reached(before, s.loop.now, s.nodes)
    ensures Reached(before, s.loop.now, s.nodes[id := FailedPrerequisite(s.nodes[id])])
  {
    assert NodeReached(before, s.loop.now, id, s.nodes[id]);
    LostWasDoomed(before, s.loop.now, s.nodes, p);
    DoomStarts(before, s.loop.now, id, p);
    hide Reached;
    WriteReaches(before, s.loop.now, s.nodes, id, FailedPrerequisite(s.nodes[id]));
  }

  lemma ReadyReaches(before: Nodes, s: Exec, id: Id)
    requires id in s.nodes && Due(s.nodes[id], s.loop.now) && AllDone(s.nodes, s.nodes[id].spec.prerequisites)
    requires Reached(before, s.loop.now, s.nodes)
    ensures Reached(before, s.loop.now, s.nodes[id := MadeReady(s.nodes[id])])
  {
    assert NodeReached(before, s.loop.now, id, s.nodes[id]);
    DoneWasDone(before, s.loop.now, s.nodes, s.nodes[id].spec.prerequisites);
    hide Reached;
    WriteReaches(before, s.loop.now, s.nodes, id, MadeReady(s.nodes[id]));
  }

  lemma PassReaches(before: Nodes, s: Exec, step: Step, s': Exec)
    requires DispatchStep(step) && DispatchNext(s, step, s') && Reached(before, s.loop.now, s.nodes)
    ensures Reached(before, s'.loop.now, s'.nodes) && s'.loop.now == s.loop.now
  {
    assert NodeReached(before, s.loop.now, step.id, s.nodes[step.id]);
    hide Reached, LostEntries, AllDone, Lost, Doomed;
    if step.DispatchFail? { FailReaches(before, s, step.id, step.p); }
    else if step.DispatchFailAgain? { WriteReaches(before, s.loop.now, s.nodes, step.id, s.nodes[step.id]); }
    else { ReadyReaches(before, s, step.id); }
  }

  lemma WriteReaches(before: Nodes, now: Time, after: Nodes, id: Id, next: Node)
    requires Reached(before, now, after) && id in before && NodeReached(before, now, id, next)
    ensures Reached(before, now, after[id := next])
  {
  }

  lemma {:induction false} RunReaches(trace: seq<Exec>, steps: seq<Step>, i: nat)
    requires IsRun(trace, steps) && i < |trace| && (forall k :: 0 <= k < |steps| ==> Dispatching(steps[k]))
    ensures trace[0].loop.now <= trace[i].loop.now && Reached(trace[0].nodes, trace[i].loop.now, trace[i].nodes)
  {
    hide Next, Reached;
    if i == 0 {
      ReachedAtFirst(trace[0].nodes, trace[0].loop.now);
    } else {
      RunReaches(trace, steps, i - 1);
      DispatchReaches(trace[0].nodes, trace[i - 1], steps[i - 1], trace[i]);
      ClockGrows(trace[i - 1], steps[i - 1], trace[i]);
    }
  }

  lemma ReachedAtFirst(nodes: Nodes, now: Time)
    ensures Reached(nodes, now, nodes)
  {
  }

  lemma ClockGrows(s: Exec, step: Step, s': Exec)
    requires Dispatching(step) && Next(s, step, s')
    ensures s.loop.now <= s'.loop.now
  {
    hide Next;
    if step.Tick? { TickIs(s, step, s'); } else { DispatchIs(s, step, s'); }
  }

  // ---- When nothing is left to do -------------------------------------------

  /** Every node still pending was not due by `now`, or is blocked. */
  predicate Exhausted(nodes: Nodes, now: Time) {
    forall id :: id in nodes && nodes[id].state.Pending? ==> now < nodes[id].nextAttemptAt || Blocked(nodes, id)
  }

  lemma {:induction false} DoomedHasFailed(before: Nodes, early: Time, late: Time, after: Nodes, path: seq<Id>)
    requires Reached(before, late, after) && Exhausted(after, early) && DoomPath(before, early, path)
    ensures after[path[0]] == FailedPrerequisite(before[path[0]])
    decreases |path|
  {
    var id := path[0];
    var p: Id;
    if |path| == 1 {
      p :| p in before[id].spec.prerequisites && Lost(before, p);
      if p in before { assert NodeReached(before, late, p, after[p]); }
    } else {
      p := path[1];
      DoomTail(before, early, path);
      DoomedHasFailed(before, early, late, after, path[1..]);
    }
    assert Lost(after, p) && p in before[id].spec.prerequisites;
    assert NodeReached(before, late, id, after[id]);
    DoneWasDone(before, late, after, before[id].spec.prerequisites);
  }

  /** The outcome of dispatching between the clock readings `early` and `late`: whatever was
      doomed or launchable from the start has been dealt with, and nothing else than what
      became so by the end. */
  ghost predicate Outcomes(before: Nodes, early: Time, late: Time, after: Nodes) {
    && Reached(before, late, after)
    && (forall id :: id in before && Doomed(before, early, id) ==> after[id] == FailedPrerequisite(before[id]))
    && (forall id :: id in before && Launchable(before, early, id) ==> after[id] == MadeReady(before[id]))
  }

  lemma ExhaustedOutcome(before: Nodes, early: Time, late: Time, after: Nodes)
    requires Reached(before, late, after) && Exhausted(after, early)
    ensures Outcomes(before, early, late, after)
  {
    forall id | id in before && Doomed(before, early, id) ensures after[id] == FailedPrerequisite(before[id]) {
      var path :| DoomPath(before, early, path) && path[0] == id;
      DoomedHasFailed(before, early, late, after, path);
    }
    forall id | id in before && Launchable(before, early, id) ensures after[id] == MadeReady(before[id]) {
      assert NodeReached(before, late, id, after[id]);
      DoneWasDone(before, late, after, before[id].spec.prerequisites);
      if Doomed(before, late, id) { LaunchableIsNotDoomed(before, early, late, id); }
    }
  }

  lemma LaunchableIsNotDoomed(nodes: Nodes, early: Time, late: Time, id: Id)
    requires id in nodes && Launchable(nodes, early, id)
    ensures !Doomed(nodes, late, id)
  {
    if Doomed(nodes, late, id) {
      var path :| DoomPath(nodes, late, path) && path[0] == id;
      if |path| > 1 { DoomTail(nodes, late, path); }
    }
  }

  /** The graph a dispatch at a fixed time leads to. */
  ghost function DispatchedNodes(nodes: Nodes, now: Time): Nodes {
    map id | id in nodes ::
      if Doomed(nodes, now, id) then FailedPrerequisite(nodes[id])
      else if Launchable(nodes, now, id) then MadeReady(nodes[id])
      else nodes[id]
  }

  /** Dispatch is confluent: with the clock fixed and every write accepted, every order of
      looking at the nodes leads to the same graph. Exactly the least doomed set has failed,
      and exactly the due nodes whose prerequisites are all done are ready. */
  lemma DispatchIsConfluent(trace: seq<Exec>, steps: seq<Step>)
    requires IsRun(trace, steps) && (forall k :: 0 <= k < |steps| ==> Dispatching(steps[k]))
    requires trace[|steps|].loop.now == trace[0].loop.now && Exhausted(trace[|steps|].nodes, trace[0].loop.now)
    ensures trace[|steps|].nodes == DispatchedNodes(trace[0].nodes, trace[0].loop.now)
  {
    hide Next;
    var before, now, after := trace[0].nodes, trace[0].loop.now, trace[|steps|].nodes;
    RunReaches(trace, steps, |steps|);
    ExhaustedOutcome(before, now, now, after);
    forall id | id in before ensures after[id] == DispatchedNodes(before, now)[id] {
      assert NodeReached(before, now, id, after[id]);
    }
  }
}
