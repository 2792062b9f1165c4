/** Structured closure: which terminal nodes have live descendants, over whole runs from any
    snapshot. */
module ExecClosure {
  import opened Base
  import opened Graph
  import opened Exec
  import opened ExecInvariants
  import opened ExecSteps
  import opened ExecRuns
  import opened ExecWrites
  import Validate

  // ---- What ends in a step --------------------------------------------------

  predicate Ended(a: Nodes, b: Nodes, p: Id) {
    p in a && p in b && !a[p].Terminal() && b[p].Terminal()
  }

  /** Every node that ends is closed below, unless a write was refused. */
  ghost predicate EndsClosed(a: Nodes, s': Exec) {
    !s'.loop.failed ==> forall p :: Ended(a, s'.nodes, p) ==> ClosedBelow(s'.nodes, p)
  }

  /** A run that has stopped writing stays stopped, and no goroutine is started. */
  predicate Plainly(s: Exec, s': Exec) {
    (s.loop.failed ==> s'.loop.failed) && s'.book.worker == s.book.worker
  }

  /** Closing below a node leaves nothing live there, nor below anything the close ended. */
  lemma CloseClosesBelow(s: Exec, top: Id, c: Closing, reason: string, p: Id)
    requires ClosingPossible(s, CloseSet(s.nodes, top), c) && c.Ok()
    requires p == top || p in c.done
    ensures ClosedBelow(Close(s, c, reason).nodes, p)
  {
    if top == NIL {
      CloseAllTerminates(s, c, reason);
    } else {
      SameLinksSameDescendants(s.nodes, Close(s, c, reason).nodes, p);
      if p != top { DescendantsNest(s.nodes, top, p); }
    }
  }

  lemma ClosingEnds(s: Exec, top: Id, c: Closing, reason: string)
    requires ClosingPossible(s, CloseSet(s.nodes, top), c)
    ensures EndsClosed(s.nodes, Close(s, c, reason)) && Plainly(s, Close(s, c, reason))
  {
    var s' := Close(s, c, reason);
    if !s'.loop.failed {
      forall p | Ended(s.nodes, s'.nodes, p) ensures ClosedBelow(s'.nodes, p) {
        assert p in c.done;
        CloseClosesBelow(s, top, c, reason, p);
      }
    }
  }

  /** `from_` is `s` with a goroutine moved on: the commit and the close are those of `s`. */
  lemma CommitEnds(s: Exec, from_: Exec, id: Id, next: Node, ok: bool, c: Closing, reason: string)
    requires id in s.nodes && next.spec == s.nodes[id].spec && next.Terminal() && ClosesBelow(s, id, next, ok, c)
    requires from_.nodes == s.nodes && from_.loop == s.loop && from_.book == s.book
    ensures var s' := CommitAndClose(from_, id, next, ok, c, reason); EndsClosed(s.nodes, s') && Plainly(s, s')
  {
    var s' := CommitAndClose(from_, id, next, ok, c, reason);
    if !s'.loop.failed {
      var w := Wrote(from_, id, next);
      SameLinksSameDescendants(s.nodes, w.nodes, id);
      forall p | Ended(s.nodes, s'.nodes, p) ensures ClosedBelow(s'.nodes, p) {
        assert p == id || p in c.done;
        CloseClosesBelow(w, id, c, reason, p);
      }
    }
  }

  /** Steps that end no node. */
  predicate NothingEnds(s: Exec, s': Exec) {
    && s'.nodes.Keys == s.nodes.Keys
    && forall p :: p in s.nodes && s'.nodes[p].Terminal() ==> s.nodes[p].Terminal()
  }

  lemma QuietEnds(s: Exec, s': Exec)
    requires NothingEnds(s, s')
    ensures EndsClosed(s.nodes, s')
  {
  }

  lemma LoopEnds(s: Exec, step: Step, s': Exec)
    requires if LoopStep(step) then LoopNext(s, step, s') else ClockStep(step) && ClockNext(s, step, s')
    ensures EndsClosed(s.nodes, s') && Plainly(s, s')
  {
    hide Settled, RootLive;
    QuietEnds(s, s');
  }

  lemma DispatchEnds(s: Exec, step: Step, s': Exec)
    requires DispatchStep(step) && DispatchNext(s, step, s') && !step.DispatchFail?
    ensures EndsClosed(s.nodes, s') && (s.loop.failed ==> s'.loop.failed)
    ensures !step.DispatchReady? ==> s'.book.worker == s.book.worker
  {
    hide LostEntries, AllDone, Lost;
    QuietEnds(s, s');
  }

  lemma ImageEnds(s: Exec, t: TaskId, ok: bool)
    requires t in s.tasks && s.tasks[t].node in s.nodes
    ensures EndsClosed(s.nodes, ImageOrAcquire(s, t, ok)) && Plainly(s, ImageOrAcquire(s, t, ok))
  {
    QuietEnds(s, ImageOrAcquire(s, t, ok));
  }

  lemma BeginEnds(s: Exec, step: Step, s': Exec)
    requires (step.BeginTask? || step.AcquireAborted?) && EarlyNext(s, step, s')
    ensures EndsClosed(s.nodes, s') && Plainly(s, s')
  {
    if step.BeginTask? { ImageEnds(s, step.t, step.ok); }
    hide EndsClosed, ImageOrAcquire;
    if s'.nodes == s.nodes { QuietEnds(s, s'); }
  }

  lemma LookedUpEnds(s: Exec, step: Step, s': Exec)
    requires step.LookedUp? && EarlyNext(s, step, s')
    ensures EndsClosed(s.nodes, s') && Plainly(s, s')
  {
    var id := s.tasks[step.t].node;
    if Abandons(s, step.t) {
      QuietEnds(s, s');
    } else if step.found.Miss? {
      ImageEnds(s, step.t, step.ok);
    } else {
      hide EndsClosed, CommitAndClose, ClosesBelow;
      CommitEnds(s, Exit(s, step.t), id, HitNode(s.nodes[id], step.found), step.ok, step.c, "parent action completed");
    }
  }

  lemma EnsuredEnds(s: Exec, step: Step, s': Exec)
    requires step.Ensured? && EarlyNext(s, step, s')
    ensures EndsClosed(s.nodes, s') && Plainly(s, s')
  {
    var id := s.tasks[step.t].node;
    if Abandons(s, step.t) || step.imageFailure.None? {
      QuietEnds(s, s');
    } else {
      hide EndsClosed, CommitAndClose, ClosesBelow;
      CommitEnds(s, Exit(s, step.t), id, ImageFailed(s.nodes[id], step.imageFailure.value), step.ok, step.c, "parent action failed");
    }
  }

  lemma FinishEnds(s: Exec, step: Step, s': Exec)
    requires step.FinishTask? && LateNext(s, step, s')
    ensures EndsClosed(s.nodes, s') && Plainly(s, s')
  {
    var id := s.tasks[step.t].node;
    if !AttemptStands(s, step.t) || OutcomeOf(s, step.t).state.Pending? {
      hide Outcome;
      QuietEnds(s, s');
    } else {
      hide EndsClosed, CommitAndClose, ClosesBelow, AttemptStands;
      CommitEnds(s, Leave(s, step.t), id, OutcomeOf(s, step.t), step.ok, step.c, "parent action completed");
    }
  }

  lemma LateEnds(s: Exec, step: Step, s': Exec)
    requires LateStep(step) && LateNext(s, step, s')
    ensures EndsClosed(s.nodes, s') && Plainly(s, s')
  {
    if step.FinishTask? {
      hide LateNext, EndsClosed;
      FinishEnds(s, step, s');
    } else {
      QuietEnds(s, s');
    }
  }

  /** `Wait` hands a slot over, `resume` takes it back; both leave the parent live. */
  lemma HandOverEnds(s: Exec, step: Step, s': Exec)
    requires (step.WaitStart? || step.Restore?) && CallNext(s, step, s')
    ensures EndsClosed(s.nodes, s') && Plainly(s, s')
  {
    if step.WaitStart? { assert !WaitingForChildren(s.nodes[step.parent]).Terminal(); }
    else { assert !Resuming(s.nodes[s.calls[step.k].parent]).Terminal(); }
    hide ParentActive, Over, CanReclaim, Resuming, WaitingForChildren;
    QuietEnds(s, s');
  }

  lemma CallEnds(s: Exec, step: Step, s': Exec)
    requires CallStep(step) && CallNext(s, step, s')
    ensures EndsClosed(s.nodes, s') && Plainly(s, s')
  {
    hide ParentActive, Over, CanReclaim;
    if step.WaitStart? || step.Restore? {
      hide CallNext, EndsClosed;
      HandOverEnds(s, step, s');
    } else {
      assert s'.nodes == s.nodes && Plainly(s, s');
      hide CallNext;
      QuietEnds(s, s');
    }
  }

  lemma CancelEnds(s: Exec, step: Step, s': Exec)
    requires CloseStep(step) && CloseNext(s, step, s')
    ensures EndsClosed(s.nodes, s') && Plainly(s, s')
  {
    hide EndsClosed, CommitAndClose, ClosesBelow, Close, ClosingPossible;
    if step.CancelTree? && !s.nodes[step.id].Terminal() {
      CommitEnds(s, CancelAttempt(s, step.id), step.id, CanceledAction(s.nodes[step.id]), step.ok, step.c, "ancestor canceled");
    } else {
      var reason := if step.CancelTree? then "ancestor canceled" else if step.CancelAll? then "run canceled" else "root action completed";
      var top := if step.CancelTree? then step.id else NIL;
      ClosingEnds(s, top, step.c, reason);
      SameEnds(s, Close(s, step.c, reason), s');
    }
  }

  lemma SameEnds(s: Exec, closed: Exec, s': Exec)
    requires EndsClosed(s.nodes, closed) && s'.nodes == closed.nodes && s'.loop.failed == closed.loop.failed
    ensures EndsClosed(s.nodes, s')
  {
  }

  /** Except where a scheduling pass fails a node for a lost prerequisite, whatever a step ends
      it also closes below, unless the store refuses a write. */
  lemma StepEnds(s: Exec, step: Step, s': Exec)
    requires Next(s, step, s') && !step.AddNode?
    ensures s.loop.failed ==> s'.loop.failed
    ensures !step.DispatchFail? ==> EndsClosed(s.nodes, s')
    ensures !step.DispatchReady? ==> s'.book.worker == s.book.worker
  {
    hide EndsClosed, LoopNext, ClockNext, EarlyNext, LateNext, CallNext, CloseNext;
    if LoopStep(step) || ClockStep(step) { LoopEnds(s, step, s'); }
    else if DispatchStep(step) && !step.DispatchFail? { DispatchEnds(s, step, s'); }
    else if EarlyStep(step) {
      if step.LookedUp? { LookedUpEnds(s, step, s'); } else if step.Ensured? { EnsuredEnds(s, step, s'); } else { BeginEnds(s, step, s'); }
    }
    else if LateStep(step) { LateEnds(s, step, s'); }
    else if CallStep(step) { CallEnds(s, step, s'); }
    else if CloseStep(step) { CancelEnds(s, step, s'); }
  }

  // ---- Which nodes are open -------------------------------------------------

  /** The guard of the one branch that ends a node without closing below it: a scheduling pass
      fails a node for a lost prerequisite while something below it is live. */
  ghost predicate Opens(s: Exec, step: Step, p: Id) {
    step.DispatchFail? && step.id == p && p in s.nodes && !ClosedBelow(s.nodes, p)
  }

  /** If what ended is closed below, an open node was open before. */
  lemma OpenBefore(a: Nodes, b: Nodes, p: Id)
    requires Evolves(a, b) && a.Keys == b.Keys && Open(b, p)
    requires Ended(a, b, p) ==> ClosedBelow(b, p)
    ensures Open(a, p)
  {
    SameLinksSameDescendants(a, b, p);
  }

  lemma FailOpens(s: Exec, step: Step, s': Exec, p: Id)
    requires Inv(s) && DispatchStep(step) && DispatchNext(s, step, s') && step.DispatchFail? && !s'.loop.failed
    ensures Open(s'.nodes, p) && !Open(s.nodes, p) <==> Opens(s, step, p)
  {
    assert Tree(s.nodes, s.book.root);
    assert s'.nodes == s.nodes[step.id := FailedPrerequisite(s.nodes[step.id])] && !s.nodes[step.id].Terminal();
    hide Inv, DispatchNext, Tree;
    OneMoreEnded(s.nodes, s.book.root, step.id, FailedPrerequisite(s.nodes[step.id]), p);
  }

  /** Ending one node opens that node, if something below it is live, and no other. */
  lemma OneMoreEnded(nodes: Nodes, root: Id, id: Id, next: Node, p: Id)
    requires Tree(nodes, root) && id in nodes && !nodes[id].Terminal() && next.Terminal() && next.spec == nodes[id].spec
    ensures Open(nodes[id := next], p) && !Open(nodes, p) <==> p == id && !ClosedBelow(nodes, p)
  {
    hide Tree;
    SameLinksSameDescendants(nodes, nodes[id := next], p);
    if p == id { NotBelowItself(nodes, root, p); }
  }

  lemma NotBelowItself(nodes: Nodes, root: Id, p: Id)
    requires Tree(nodes, root) && p in nodes
    ensures p !in Descendants(nodes, p)
  {
  }

  /** A new leaf under a live node opens nothing. */
  lemma AddOpensNothing(nodes: Nodes, id: Id, child: Node, p: Id)
    requires ParentsExist(nodes) && id !in nodes && child.spec.parent.Some? && child.spec.parent.value in nodes
    requires !nodes[child.spec.parent.value].Terminal() && Open(nodes[id := child], p)
    ensures Open(nodes, p)
  {
    var after, parent := nodes[id := child], child.spec.parent.value;
    DescendantsClosed(nodes, p);
    var below := Descendants(nodes, p) + (if parent == p || parent in Descendants(nodes, p) then {id} else {});
    assert forall x, c :: (x == p || x in below) && ChildOf(after, c, x) ==> c == id || ChildOf(nodes, c, x);
    DescendantsLeast(after, p, below);
    if p == id {
      assert forall x, c :: x == id && ChildOf(after, c, x) ==> false;
      DescendantsLeast(after, id, {});
    }
  }

  lemma AddOpens(s: Exec, step: Step, s': Exec, p: Id)
    requires Inv(s) && step.AddNode? && AddNext(s, step, s') && Open(s'.nodes, p)
    ensures Open(s.nodes, p)
  {
    assert ParentsExist(s.nodes);
    hide Inv, ParentsExist;
    AddOpensNothing(s.nodes, step.id, step.node.(spec := step.node.spec.(parent := Some(step.parent))), p);
  }

  lemma FailedStays(s: Exec, step: Step, s': Exec)
    requires Next(s, step, s') && s.loop.failed
    ensures s'.loop.failed
  {
    hide Next;
    if step.AddNode? { AddedNode(s, step, s'); } else { StepEnds(s, step, s'); }
  }

  /** Structured closure, step by step and from any state: unless a write is refused, a node gets
      open in a step if and only if a scheduling pass fails it above something live. */
  lemma StepOpensExactly(s: Exec, step: Step, s': Exec, p: Id)
    requires Inv(s) && Next(s, step, s') && !s'.loop.failed
    ensures Open(s'.nodes, p) && !Open(s.nodes, p) <==> Opens(s, step, p)
  {
    hide Inv, Next, Open, DispatchNext, AddNext, ClosedBelow;
    if step.DispatchFail? {
      DispatchIs(s, step, s');
      FailOpens(s, step, s', p);
    } else if Open(s'.nodes, p) {
      StepKept(s, step, s');
      if step.AddNode? {
        AddIs(s, step, s');
        AddOpens(s, step, s', p);
      } else {
        StepEnds(s, step, s');
        OpenBefore(s.nodes, s'.nodes, p);
      }
    }
  }

  /** Up to a state in which no write has been refused, none had been refused before. */
  lemma {:induction false} NotFailedBefore(trace: seq<Exec>, steps: seq<Step>, i: nat, j: nat)
    requires GoodRun(trace, steps) && i <= j < |trace| && !trace[j].loop.failed
    ensures !trace[i].loop.failed
    decreases j - i
  {
    hide Next, GoodRun;
    if i < j {
      FirstState(trace, steps);
      NthStep(trace, steps, i);
      NotFailedBefore(trace, steps, i + 1, j);
      if trace[i].loop.failed { FailedStays(trace[i], steps[i], trace[i + 1]); }
    }
  }

  /** Structured closure over whole runs, from any snapshot: as long as no write is refused, a node
      is open only if it was open in the snapshot or was failed for a lost prerequisite above
      something live. */
  lemma {:induction false} RunOpens(trace: seq<Exec>, steps: seq<Step>, i: nat, p: Id)
    requires GoodRun(trace, steps) && i < |trace| && !trace[i].loop.failed && Open(trace[i].nodes, p)
    ensures |trace| == |steps| + 1
    ensures Open(trace[0].nodes, p) || exists k :: 0 <= k < i && Opens(trace[k], steps[k], p)
  {
    hide Next, GoodRun, Open, Opens, Inv;
    FirstState(trace, steps);
    if i > 0 {
      NthStep(trace, steps, i - 1);
      RunInv(trace, steps, i - 1);
      StepOpensExactly(trace[i - 1], steps[i - 1], trace[i], p);
      if Open(trace[i - 1].nodes, p) {
        NotFailedBefore(trace, steps, i - 1, i);
        RunOpens(trace, steps, i - 1, p);
      }
    }
  }

  /** A run from a closed snapshot stays closed if and only if no scheduling pass fails a node for
      a lost prerequisite above something live. */
  lemma RunStaysClosedExactly(trace: seq<Exec>, steps: seq<Step>)
    requires GoodRun(trace, steps) && |trace| > 0 && SubtreesClosed(trace[0].nodes) && !trace[|trace| - 1].loop.failed
    ensures |trace| == |steps| + 1
    ensures (forall i :: 0 <= i < |trace| ==> SubtreesClosed(trace[i].nodes))
            <==> (forall k, p :: 0 <= k < |steps| ==> !Opens(trace[k], steps[k], p))
  {
    hide Next, GoodRun, Open, Opens, Inv, SubtreesClosed;
    FirstState(trace, steps);
    if forall k, p :: 0 <= k < |steps| ==> !Opens(trace[k], steps[k], p) {
      forall i | 0 <= i < |trace| ensures SubtreesClosed(trace[i].nodes) {
        NotFailedBefore(trace, steps, i, |steps|);
        ClosedWithoutOpening(trace, steps, i);
      }
    } else {
      var k, p :| 0 <= k < |steps| && Opens(trace[k], steps[k], p);
      OpensForSure(trace, steps, k, p);
    }
  }

  lemma ClosedWithoutOpening(trace: seq<Exec>, steps: seq<Step>, i: nat)
    requires GoodRun(trace, steps) && i < |trace| == |steps| + 1 && !trace[i].loop.failed && SubtreesClosed(trace[0].nodes)
    requires forall k, p :: 0 <= k < i ==> !Opens(trace[k], steps[k], p)
    ensures SubtreesClosed(trace[i].nodes)
  {
    hide Next, GoodRun, Open, Opens, SubtreesClosed;
    ClosedIsNoneOpen(trace[0].nodes);
    ClosedIsNoneOpen(trace[i].nodes);
    if p :| Open(trace[i].nodes, p) { RunOpens(trace, steps, i, p); }
  }

  lemma OpensForSure(trace: seq<Exec>, steps: seq<Step>, k: nat, p: Id)
    requires GoodRun(trace, steps) && k < |steps| && |trace| == |steps| + 1 && !trace[|steps|].loop.failed
    requires Opens(trace[k], steps[k], p)
    ensures !SubtreesClosed(trace[k + 1].nodes)
  {
    hide Next, GoodRun, Open, Inv, SubtreesClosed, ClosedBelow;
    NthStep(trace, steps, k);
    RunInv(trace, steps, k);
    NotFailedBefore(trace, steps, k + 1, |steps|);
    StepOpensExactly(trace[k], steps[k], trace[k + 1], p);
    ClosedIsNoneOpen(trace[k + 1].nodes);
  }

  // ---- Snapshots that stay closed -------------------------------------------

  /** Nodes that were ever dispatched, and nodes with children, have met prerequisites. */
  predicate PrerequisitesMet(nodes: Nodes, worker: map<Id, TaskId>) {
    && (forall id :: id in worker ==> id in nodes && AllDone(nodes, nodes[id].spec.prerequisites))
    && (forall c :: c in nodes && nodes[c].spec.parent.Some? && nodes[c].spec.parent.value in nodes ==>
          AllDone(nodes, nodes[nodes[c].spec.parent.value].spec.prerequisites))
  }

  /** No node with children waits for a prerequisite. */
  predicate ParentsReady(nodes: Nodes) {
    PrerequisitesMet(nodes, map[])
  }

  lemma EvolvesKeepsDone(a: Nodes, b: Nodes, prerequisites: seq<Id>)
    requires Evolves(a, b) && AllDone(a, prerequisites)
    ensures AllDone(b, prerequisites)
  {
  }

  lemma EvolvesKeepsPrerequisites(a: Nodes, b: Nodes, worker: map<Id, TaskId>)
    requires Evolves(a, b) && a.Keys == b.Keys && PrerequisitesMet(a, worker)
    ensures PrerequisitesMet(b, worker)
  {
    forall id | id in worker ensures id in b && AllDone(b, b[id].spec.prerequisites) {
      EvolvesKeepsDone(a, b, a[id].spec.prerequisites);
    }
    forall c | c in b && b[c].spec.parent.Some? && b[c].spec.parent.value in b
      ensures AllDone(b, b[b[c].spec.parent.value].spec.prerequisites)
    {
      EvolvesKeepsDone(a, b, a[a[c].spec.parent.value].spec.prerequisites);
    }
  }

  /** A node that is made ready has met its prerequisites. */
  lemma ReadyKeepsPrerequisites(s: Exec, step: Step, s': Exec)
    requires DispatchStep(step) && DispatchNext(s, step, s') && step.DispatchReady?
    requires PrerequisitesMet(s'.nodes, s.book.worker) && Evolves(s.nodes, s'.nodes)
    ensures PrerequisitesMet(s'.nodes, s'.book.worker)
  {
    EvolvesKeepsDone(s.nodes, s'.nodes, s.nodes[step.id].spec.prerequisites);
  }

  lemma AddKeepsPrerequisites(nodes: Nodes, worker: map<Id, TaskId>, parent: Id, id: Id, child: Node)
    requires PrerequisitesMet(nodes, worker) && ParentsExist(nodes)
    requires id !in nodes && child.spec.parent == Some(parent) && parent in nodes && parent in worker
    ensures PrerequisitesMet(nodes[id := child], worker)
  {
    var after := nodes[id := child];
    forall x | x in worker ensures x in after && AllDone(after, after[x].spec.prerequisites) {
      assert AllDone(nodes, nodes[x].spec.prerequisites);
    }
    forall c | c in after && after[c].spec.parent.Some? && after[c].spec.parent.value in after
      ensures AllDone(after, after[after[c].spec.parent.value].spec.prerequisites)
    {
      assert AllDone(nodes, nodes[after[c].spec.parent.value].spec.prerequisites);
    }
  }

  lemma ActiveParent(s: Exec, parent: Id)
    requires Goroutines(s) && parent in s.active
    ensures parent in s.nodes && parent in s.book.worker
  {
    assert ActiveOk(s, parent);
    assert TaskOk(s, s.active[parent]);
  }

  lemma AddKeepsReady(s: Exec, step: Step, s': Exec)
    requires Inv(s) && step.AddNode? && AddNext(s, step, s') && PrerequisitesMet(s.nodes, s.book.worker)
    ensures PrerequisitesMet(s'.nodes, s'.book.worker)
  {
    ActiveParent(s, step.parent);
    assert ParentsExist(s.nodes);
    hide Inv, PrerequisitesMet, ParentsExist;
    AddKeepsPrerequisites(s.nodes, s.book.worker, step.parent, step.id, step.node.(spec := step.node.spec.(parent := Some(step.parent))));
  }

  lemma StepKeepsReady(s: Exec, step: Step, s': Exec)
    requires Inv(s) && Next(s, step, s') && PrerequisitesMet(s.nodes, s.book.worker)
    ensures PrerequisitesMet(s'.nodes, s'.book.worker)
  {
    hide Inv, Next, PrerequisitesMet, Evolves, DispatchNext, AddNext;
    if step.AddNode? {
      AddIs(s, step, s');
      AddKeepsReady(s, step, s');
    } else {
      StepKept(s, step, s');
      StepEnds(s, step, s');
      EvolvesKeepsPrerequisites(s.nodes, s'.nodes, s.book.worker);
      if step.DispatchReady? {
        DispatchIs(s, step, s');
        ReadyKeepsPrerequisites(s, step, s');
      }
    }
  }

  lemma NothingStarted(trace: seq<Exec>, steps: seq<Step>)
    requires GoodRun(trace, steps)
    ensures |trace| > 0 && (ParentsReady(trace[0].nodes) ==> PrerequisitesMet(trace[0].nodes, trace[0].book.worker))
  {
    hide Next, Tree, TimersArmed, PrerequisitesMet;
    assert trace[0].book.worker == map[];
  }

  lemma {:induction false} RunKeepsReady(trace: seq<Exec>, steps: seq<Step>, i: nat)
    requires GoodRun(trace, steps) && i < |trace| && ParentsReady(trace[0].nodes)
    ensures PrerequisitesMet(trace[i].nodes, trace[i].book.worker)
  {
    hide *;
    NothingStarted(trace, steps);
    if i > 0 {
      FirstState(trace, steps);
      RunKeepsReady(trace, steps, i - 1);
      NthStep(trace, steps, i - 1);
      RunInv(trace, steps, i - 1);
      StepKeepsReady(trace[i - 1], steps[i - 1], trace[i]);
    }
  }

  /** A node with a lost prerequisite has nothing below it. */
  lemma ReadyNeverOpens(s: Exec, step: Step, s': Exec, p: Id)
    requires Next(s, step, s') && PrerequisitesMet(s.nodes, s.book.worker)
    ensures !Opens(s, step, p)
  {
    hide Next;
    if Opens(s, step, p) {
      DispatchIs(s, step, s');
      var c :| c in Descendants(s.nodes, p) && !s.nodes[c].Terminal();
      var child := FirstChild(s.nodes, p, c);
    }
  }

  /** If no parent in the snapshot waits for a prerequisite, a run opens nothing: whatever ends
      in it ends with everything below, as long as no write is refused. */
  lemma RunOpensNothing(trace: seq<Exec>, steps: seq<Step>, i: nat, p: Id)
    requires GoodRun(trace, steps) && i < |trace| && !trace[i].loop.failed && ParentsReady(trace[0].nodes)
    requires Open(trace[i].nodes, p)
    ensures Open(trace[0].nodes, p)
  {
    hide Next, GoodRun, Open, Opens, ParentsReady, PrerequisitesMet;
    RunOpens(trace, steps, i, p);
    if !Open(trace[0].nodes, p) {
      var k :| 0 <= k < i && Opens(trace[k], steps[k], p);
      RunKeepsReady(trace, steps, k);
      NthStep(trace, steps, k);
      ReadyNeverOpens(trace[k], steps[k], trace[k + 1], p);
    }
  }

  /** So a closed snapshot stays closed: a terminal node has no live descendant. */
  lemma RunKeepsSubtreesClosed(trace: seq<Exec>, steps: seq<Step>, i: nat)
    requires GoodRun(trace, steps) && i < |trace| && !trace[i].loop.failed
    requires SubtreesClosed(trace[0].nodes) && ParentsReady(trace[0].nodes)
    ensures SubtreesClosed(trace[i].nodes)
  {
    hide Next, GoodRun, Open, ParentsReady, SubtreesClosed;
    ClosedIsNoneOpen(trace[0].nodes);
    ClosedIsNoneOpen(trace[i].nodes);
    if p :| Open(trace[i].nodes, p) { RunOpensNothing(trace, steps, i, p); }
  }

  /** Without prerequisites no parent waits for one. */
  lemma PlainOpensNothing(trace: seq<Exec>, steps: seq<Step>, i: nat, p: Id)
    requires PlainRun(trace, steps) && i < |trace| && !trace[i].loop.failed && Open(trace[i].nodes, p)
    ensures Open(trace[0].nodes, p)
  {
    assert ParentsReady(trace[0].nodes);
    hide GoodRun, Open, ParentsReady, Plain;
    RunOpensNothing(trace, steps, i, p);
  }

  // ---- A snapshot that does not stay closed ---------------------------------

  /** It does happen: under the root a failed node and one that needs it and has a live child. The
      snapshot is acceptable and closed, and the first pass opens it. */
  lemma SomeRunOpens(failed: Node) returns (s: Exec, step: Step, s': Exec)
    requires failed.state.Failed? && failed.spec.parent == Some(1) && failed.spec.prerequisites == []
    ensures GoodRun([s, s'], [step]) && !s'.loop.failed
    ensures Validate.Acceptable(s.nodes) && SubtreesClosed(s.nodes) && Open(s'.nodes, 3)
  {
    var nodes := WaitingParent(failed);
    s := Start(nodes, 1, 0, {});
    step := DispatchFail(3, 2, true);
    hide GoodRun, Next, Tree, TimersArmed, SubtreesClosed, Validate.Acceptable, Open, Lost;
    s' := FailsWaiting(s);
    StartIsRun(s);
    ExtendRun([s], [], step, s');
    assert [s] + [s'] == [s, s'] && [] + [step] == [step];
  }

  lemma FailsWaiting(s: Exec) returns (s': Exec)
    requires s.loop.scheduler.Scheduling? && !s.loop.failed && 3 in s.nodes && Due(s.nodes[3], s.loop.now)
    requires s.nodes[3].spec.prerequisites == [2] && Lost(s.nodes, 2) && ChildOf(s.nodes, 4, 3) && s.nodes[4].state.Pending?
    ensures Next(s, DispatchFail(3, 2, true), s') && !s'.loop.failed && Open(s'.nodes, 3)
  {
    s' := FailPending(s, 3, true);
    DispatchIs(s, DispatchFail(3, 2, true), s');
    hide Next;
    ChildIsBelow(s'.nodes, 3, 4);
    assert 4 in Descendants(s'.nodes, 3);
  }

  lemma WaitingParent(failed: Node) returns (nodes: Nodes)
    requires failed.state.Failed? && failed.spec.parent == Some(1) && failed.spec.prerequisites == []
    ensures Tree(nodes, 1) && Validate.Acceptable(nodes) && SubtreesClosed(nodes)
    ensures nodes.Keys == {1, 2, 3, 4} && Lost(nodes, 2) && ChildOf(nodes, 4, 3)
    ensures nodes[3].spec.prerequisites == [2] && nodes[4].spec.prerequisites == []
    ensures Due(nodes[3], 0) && nodes[4].state.Pending? && TimersArmed(nodes, {}, 0)
  {
    var root := failed.(state := Pending, nextAttemptAt := 0, spec := failed.spec.(parent := None));
    var waiting := failed.(state := Pending, nextAttemptAt := 0, spec := failed.spec.(prerequisites := [2]));
    var child := root.(spec := root.spec.(parent := Some(3)));
    var n1: Nodes := map[1 := root];
    AloneIsTree(n1, 1);
    LeafKeepsTree(n1, 1, 2, failed);
    LeafKeepsTree(n1[2 := failed], 1, 3, waiting);
    LeafKeepsTree(n1[2 := failed][3 := waiting], 1, 4, child);
    nodes := n1[2 := failed][3 := waiting][4 := child];
    hide Tree;
    ClosureIsLocal(nodes);
    var order: seq<Id> := [1, 2, 3, 4];
    assert order[..2] == [1, 2];
    forall id | id in nodes ensures !Validate.OnCycle(nodes, id) {
      Validate.SortedIsAcyclic(nodes, order, id);
    }
  }
}
