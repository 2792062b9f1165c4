/** What holds over whole runs of the executor, for every interleaving of its goroutines,
    every caller, every timer and every answer of the store. */
module ExecRuns {
  import opened Base
  import opened Graph
  import opened Exec
  import opened ExecInvariants
  import opened ExecSteps

  // ---- One step -------------------------------------------------------------

  lemma LoopStepKept(s: Exec, step: Step, s': Exec)
    requires Inv(s) && LoopStep(step) && LoopNext(s, step, s')
    ensures Kept(s, s')
  {
    hide Kept, Goroutines, Tree, Accounts, TimersArmed, Settled, RootLive, TimerFires;
    LoopKept(s, s');
  }

  lemma ClockStepKept(s: Exec, step: Step, s': Exec)
    requires Inv(s) && ClockStep(step) && ClockNext(s, step, s')
    ensures Kept(s, s')
  {
    hide Inv, Kept, TimerFires;
    if step.Tick? { TickKept(s, step.to); }
    else { TimerFiresKept(s, step.timer); }
  }

  lemma DispatchStepKept(s: Exec, step: Step, s': Exec)
    requires Inv(s) && DispatchStep(step) && DispatchNext(s, step, s')
    ensures Kept(s, s')
  {
    hide Inv, Kept, LostEntries, Lost, AllDone, Due, FailPending, MakeReady, Commit;
    if step.DispatchFail? { FailPendingKept(s, step.id, step.p, step.ok); }
    else if step.DispatchFailAgain? { FailAgainKept(s, step.id, step.ok); }
    else { MakeReadyKept(s, step.id, step.t, step.ok); }
  }

  lemma EarlyStepKept(s: Exec, step: Step, s': Exec)
    requires Inv(s) && EarlyStep(step) && EarlyNext(s, step, s')
    ensures Kept(s, s')
  {
    hide Inv, Kept, Begin, LookupReturns, ImageReturns, Exit, ClosesBelow, HitNode, ImageFailed;
    if step.BeginTask? { BeginKept(s, step.t, step.ok); }
    else if step.LookedUp? { LookupReturnsKept(s, step.t, step.found, step.ok, step.c); }
    else if step.Ensured? { ImageReturnsKept(s, step.t, step.imageFailure, step.ok, step.c); }
    else { ExitKept(s, step.t); }
  }

  lemma LateStepKept(s: Exec, step: Step, s': Exec)
    requires Inv(s) && LateStep(step) && LateNext(s, step, s')
    ensures Kept(s, s')
  {
    hide Inv, Kept, StartAttempt, AcquireSlot, RunnerReturns, Finish, ClosesBelow, AttemptStands, OutcomeOf;
    if step.Acquire? { AcquireSlotKept(s, step.t); }
    else if step.Launch? { StartAttemptKept(s, step.t, step.ok); }
    else if step.Return? { RunnerReturnsKept(s, step.t, step.output, step.failure); }
    else { FinishKept(s, step.t, step.ok, step.c); }
  }

  lemma CallsKept(s: Exec, step: Step, s': Exec)
    requires Inv(s) && CallStep(step) && CallNext(s, step, s')
    ensures Kept(s, s')
  {
    hide Inv, Kept, WaitBegins, Unblock, TakeMutex, Recheck, Resumed, Reclaim;
    if step.WaitStart? { WaitBeginsKept(s, step.k, step.parent, step.attempt, step.child, step.ok); }
    else if step.WaitEnd? { UnblockKept(s, step.k); }
    else if step.Lock? { TakeMutexKept(s, step.k); }
    else if step.Drain? { SetPhaseKept(s, step.k, Rechecking); }
    else if step.CheckAgain? { RecheckKept(s, step.k); }
    else if step.Reacquire? { ReacquireKept(s, step.k); }
    else if step.ReacquireAborted? { ResumedKept(s, step.k); }
    else { ReclaimKept(s, step.k, step.ok); }
  }

  lemma CloseStepKept(s: Exec, step: Step, s': Exec)
    requires Inv(s) && CloseStep(step) && CloseNext(s, step, s')
    ensures Kept(s, s')
  {
    hide Inv, Kept, ReturnedWith, CancelSubtree, CanceledRun, ClosesBelow, ClosingPossible;
    if step.ReturnByRoot? { ReturnByRootKept(s, step.c); }
    else if step.CancelTree? { CancelSubtreeKept(s, step.id, step.ok, step.c); }
    else { CancelAllKept(s, step.c); }
  }

  /** Nodes are added as their rows describe them. */
  predicate FromRows(step: Step) {
    step.AddNode? ==> step.node.Restored()
  }

  /** Every step keeps the invariants and takes each node through at most one legal commit. */
  lemma StepKept(s: Exec, step: Step, s': Exec)
    requires Inv(s) && Next(s, step, s')
    ensures Inv(s') && Evolves(s.nodes, s'.nodes)
    ensures SlotsOk(s) && FromRows(step) ==> SlotsOk(s')
    ensures step.AddNode? ==> CanAdd(s, step.parent, step.attempt, step.id)
    ensures !step.AddNode? ==> s'.nodes.Keys == s.nodes.Keys
  {
    hide Inv, LoopNext, ClockNext, DispatchNext, EarlyNext, LateNext, CallNext, CloseNext;
    if LoopStep(step) { LoopStepKept(s, step, s'); }
    else if ClockStep(step) { ClockStepKept(s, step, s'); }
    else if DispatchStep(step) { DispatchStepKept(s, step, s'); }
    else if EarlyStep(step) { EarlyStepKept(s, step, s'); }
    else if LateStep(step) { LateStepKept(s, step, s'); }
    else if CallStep(step) { CallsKept(s, step, s'); }
    else if CloseStep(step) { CloseStepKept(s, step, s'); }
    else {
      AddInv(s, step.parent, step.attempt, step.id, step.node);
      if SlotsOk(s) && FromRows(step) { AddKeepsSlots(s, step.parent, step.id, step.node); }
    }
  }

  // ---- Runs -----------------------------------------------------------------

  /** A run: states `trace[0], trace[1], ...`, each reached from the one before by a step. */
  ghost predicate IsRun(trace: seq<Exec>, steps: seq<Step>) {
    |trace| == |steps| + 1 && forall i :: 0 <= i < |steps| ==> Next(trace[i], steps[i], trace[i + 1])
  }

  /** A run of an executor, started on any snapshot whose parent links form one tree. */
  ghost predicate GoodRun(trace: seq<Exec>, steps: seq<Step>) {
    && IsRun(trace, steps)
    && var s := trace[0];
    && Tree(s.nodes, s.book.root)
    && s == Start(s.nodes, s.book.root, s.loop.now, s.loop.timers)
    && TimersArmed(s.nodes, s.loop.timers, s.loop.now)
  }

  lemma StartInv(nodes: Nodes, root: Id, now: Time, timers: set<Timer>)
    requires Tree(nodes, root) && TimersArmed(nodes, timers, now)
    ensures Inv(Start(nodes, root, now, timers))
  {
    hide Tree;
  }

  lemma StartIsRun(s: Exec)
    requires Tree(s.nodes, s.book.root) && TimersArmed(s.nodes, s.loop.timers, s.loop.now)
    requires s == Start(s.nodes, s.book.root, s.loop.now, s.loop.timers)
    ensures GoodRun([s], [])
  {
    hide Tree, TimersArmed, Next;
  }

  lemma NthStep(trace: seq<Exec>, steps: seq<Step>, i: nat)
    requires GoodRun(trace, steps) && i < |steps|
    ensures |trace| == |steps| + 1 && Next(trace[i], steps[i], trace[i + 1])
  {
    hide Next;
  }

  lemma FirstState(trace: seq<Exec>, steps: seq<Step>)
    requires GoodRun(trace, steps)
    ensures |trace| == |steps| + 1 && Inv(trace[0])
  {
    hide Inv, Next;
    StartInv(trace[0].nodes, trace[0].book.root, trace[0].loop.now, trace[0].loop.timers);
  }

  lemma ExtendRun(trace: seq<Exec>, steps: seq<Step>, step: Step, s': Exec)
    requires GoodRun(trace, steps) && |trace| > 0 && Next(trace[|trace| - 1], step, s')
    ensures GoodRun(trace + [s'], steps + [step])
  {
    hide Next;
    var t, u := trace + [s'], steps + [step];
    forall i | 0 <= i < |u| ensures Next(t[i], u[i], t[i + 1]) {
      if i < |steps| { assert Next(trace[i], steps[i], trace[i + 1]); }
    }
  }

  lemma {:induction false} RunInv(trace: seq<Exec>, steps: seq<Step>, i: nat)
    requires GoodRun(trace, steps) && i < |trace|
    ensures Inv(trace[i])
  {
    hide *;
    FirstState(trace, steps);
    if i > 0 {
      RunInv(trace, steps, i - 1);
      NthStep(trace, steps, i - 1);
      StepKept(trace[i - 1], steps[i - 1], trace[i]);
    }
  }

  /** The parent links form one tree at every moment. */
  lemma RunKeepsTree(trace: seq<Exec>, steps: seq<Step>, i: nat)
    requires GoodRun(trace, steps) && i < |trace|
    ensures Tree(trace[i].nodes, trace[i].book.root)
  {
    RunInv(trace, steps, i);
  }

  lemma StepKeepsTerminal(s: Exec, step: Step, s': Exec, id: Id)
    requires Inv(s) && Next(s, step, s') && id in s.nodes && s.nodes[id].Terminal()
    ensures id in s'.nodes && s'.nodes[id] == s.nodes[id]
  {
    hide Inv, Next;
    StepKept(s, step, s');
  }

  /** A terminal node is never touched again. */
  lemma {:induction false} RunKeepsTerminal(trace: seq<Exec>, steps: seq<Step>, i: nat, j: nat, id: Id)
    requires GoodRun(trace, steps) && i <= j < |trace|
    requires id in trace[i].nodes && trace[i].nodes[id].Terminal()
    ensures id in trace[j].nodes && trace[j].nodes[id] == trace[i].nodes[id]
  {
    hide *;
    FirstState(trace, steps);
    if i < j {
      RunKeepsTerminal(trace, steps, i, j - 1, id);
      RunInv(trace, steps, j - 1);
      NthStep(trace, steps, j - 1);
      StepKeepsTerminal(trace[j - 1], steps[j - 1], trace[j], id);
    }
  }

  /** No lost wake-up: a parked loop with an empty wake buffer and a live context has a live
      root, and every pending node has a timer for its current attempt or waits for a live
      prerequisite with none lost. */
  lemma RunNeverLosesWakeups(trace: seq<Exec>, steps: seq<Step>, i: nat, id: Id)
    requires GoodRun(trace, steps) && i < |trace|
    requires trace[i].loop.scheduler.Parked? && !trace[i].loop.wake && !trace[i].loop.ctxDone
    ensures RootLive(trace[i].nodes, trace[i].book.root)
    ensures id in trace[i].nodes && trace[i].nodes[id].state.Pending? ==>
              TimerFor(trace[i].nodes, id) in trace[i].loop.timers || Blocked(trace[i].nodes, id)
    ensures var nodes := trace[i].nodes;
            id in nodes && nodes[id].state.Pending? ==>
              || Timer(id, nodes[id].attempt, nodes[id].nextAttemptAt) in trace[i].loop.timers
              || ((exists p :: p in nodes[id].spec.prerequisites && p in nodes && !nodes[p].Terminal())
                  && forall p :: p in nodes[id].spec.prerequisites ==> p in nodes && !nodes[p].state.Failed? && !nodes[p].state.Canceled?)
  {
    RunInv(trace, steps, i);
    hide Tree, Goroutines;
  }

  /** The snapshot and every added node came from stored rows. */
  ghost predicate RestoredRun(trace: seq<Exec>, steps: seq<Step>) {
    && |trace| > 0 && (forall id :: id in trace[0].nodes ==> trace[0].nodes[id].Restored())
    && forall k :: 0 <= k < |steps| ==> FromRows(steps[k])
  }

  lemma StartSlots(s: Exec)
    requires forall id :: id in s.nodes ==> s.nodes[id].Restored()
    ensures SlotsOk(s)
  {
  }

  /** While the context is live, running nodes hold a slot and nodes waiting for children
      hold none. */
  lemma {:induction false} RunKeepsSlots(trace: seq<Exec>, steps: seq<Step>, i: nat)
    requires GoodRun(trace, steps) && i < |trace|
    requires RestoredRun(trace, steps)
    ensures SlotsOk(trace[i])
  {
    if i == 0 {
      hide Inv, Next;
      StartSlots(trace[0]);
    } else {
      hide Inv, Next, GoodRun, SlotsOk, Evolves, FromRows;
      RunKeepsSlots(trace, steps, i - 1);
      RunInv(trace, steps, i - 1);
      NthStep(trace, steps, i - 1);
      StepKept(trace[i - 1], steps[i - 1], trace[i]);
    }
  }

  // ---- Returning through the root -------------------------------------------

  lemma ClosedRunStays(s: Exec, step: Step, s': Exec)
    requires Inv(s) && Next(s, step, s') && AllTerminal(s.nodes)
    ensures s'.nodes == s.nodes
  {
    hide Next, Inv;
    StepKept(s, step, s');
    assert !step.AddNode?;
  }

  /** Once `Run` has returned through the root, the whole graph is terminal and stays as it is. */
  lemma {:induction false} ReturnedRunIsFinal(trace: seq<Exec>, steps: seq<Step>, i: nat, j: nat)
    requires GoodRun(trace, steps) && i <= j < |trace| && trace[i].loop.scheduler.ReturnedByRoot?
    ensures AllTerminal(trace[j].nodes) && trace[j].nodes == trace[i].nodes
  {
    if i == j {
      hide Next, Goroutines, Tree;
      RunInv(trace, steps, i);
    } else {
      hide *;
      FirstState(trace, steps);
      ReturnedRunIsFinal(trace, steps, i, j - 1);
      RunInv(trace, steps, j - 1);
      NthStep(trace, steps, j - 1);
      ClosedRunStays(trace[j - 1], steps[j - 1], trace[j]);
    }
  }
}
