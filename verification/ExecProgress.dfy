/** Progress: when the scheduler loop wakes up and returns, and that no node in progress is left
    without its goroutine. */
module ExecProgress {
  import opened Base
  import opened Graph
  import opened Exec
  import opened ExecInvariants
  import opened ExecSteps
  import opened ExecRuns
  import ExecClosure
  import Reports = ExecReports

  // ---- The scheduler loop ---------------------------------------------------

  /** A parked loop goes on exactly with something in its wake buffer or with its context ended, and
      takes it out. */
  lemma WakesExactly(s: Exec)
    requires s.loop.scheduler.Parked?
    ensures (exists s' :: Next(s, WakeUp, s')) <==> s.loop.wake || s.loop.ctxDone
    ensures forall s' :: Next(s, WakeUp, s') ==> s'.loop.scheduler.Scheduling? && !s'.loop.wake && s'.nodes == s.nodes
  {
    hide ClockNext, DispatchNext, EarlyNext, LateNext, CallNext, CloseNext, AddNext, CanPark;
    if s.loop.wake || s.loop.ctxDone { assert Next(s, WakeUp, s.(loop := s.loop.(scheduler := Scheduling, wake := false))); }
  }

  /** The loop returns through its root exactly once the root has ended, and otherwise only with a
      failed write or an ended context. */
  lemma ReturnsExactly(s: Exec)
    requires s.loop.scheduler.Scheduling?
    ensures (exists c, s' :: Next(s, ReturnByRoot(c), s')) <==>
              !s.loop.failed && !s.loop.ctxDone && s.book.root in s.nodes && s.nodes[s.book.root].Terminal()
    ensures (exists s' :: Next(s, ReturnByError, s')) <==> s.loop.failed || s.loop.ctxDone
  {
    hide ClockNext, DispatchNext, EarlyNext, LateNext, CallNext, AddNext, CanPark, ReturnedWith;
    if s.loop.failed || s.loop.ctxDone {
      assert Next(s, ReturnByError, s.(loop := s.loop.(scheduler := ReturnedByError, ctxDone := true)));
    }
    if CanReturnByRoot(s) {
      var c := Closing(LiveAmong(s.nodes, s.nodes.Keys), None);
      assert Next(s, ReturnByRoot(c), ReturnedWith(s, c));
    }
  }

  /** No other step moves the loop: it starts a pass only by waking up, and ends one only by parking or
      returning. */
  lemma OthersKeepTheLoop(s: Exec, step: Step, s': Exec)
    requires Next(s, step, s') && s'.loop.scheduler != s.loop.scheduler
    ensures match step
            case WakeUp => s.loop.scheduler.Parked?
            case Park => s.loop.scheduler.Scheduling? && s'.loop.scheduler.Parked?
            case ReturnByRoot(_) => s.loop.scheduler.Scheduling?
            case ReturnByError => s.loop.scheduler.Scheduling?
            case _ => false
  {
    hide LoopNext, ClockNext, DispatchNext, EarlyNext, LateNext, CallNext, CloseNext, AddNext;
    if LoopStep(step) { LoopMoves(s, step, s'); }
    else if EarlyStep(step) { EarlyKeepsLoop(s, step, s'); }
    else if LateStep(step) { LateKeepsLoop(s, step, s'); }
    else if CallStep(step) { CallKeepsLoop(s, step, s'); }
    else if CloseStep(step) { CloseKeepsLoop(s, step, s'); }
    else { RestKeepsLoop(s, step, s'); }
  }

  lemma LoopMoves(s: Exec, step: Step, s': Exec)
    requires LoopStep(step) && LoopNext(s, step, s') && s'.loop.scheduler != s.loop.scheduler
    ensures step.WakeUp? ==> s.loop.scheduler.Parked?
    ensures !step.WakeUp? ==> s.loop.scheduler.Scheduling? && (step.ReturnByError? || (step.Park? && s'.loop.scheduler.Parked?))
  {
    hide Settled, RootLive;
  }

  lemma CommitKeepsLoop(s: Exec, id: Id, next: Node, ok: bool, c: Closing, reason: string)
    ensures CommitAndClose(s, id, next, ok, c, reason).loop.scheduler == s.loop.scheduler
  {
  }

  lemma EarlyKeepsLoop(s: Exec, step: Step, s': Exec)
    requires EarlyStep(step) && EarlyNext(s, step, s')
    ensures s'.loop.scheduler == s.loop.scheduler
  {
    hide ClosesBelow, HitNode, ImageFailed, CommitAndClose;
    if step.LookedUp? && step.found.Hit? {
      CommitKeepsLoop(Exit(s, step.t), s.tasks[step.t].node, HitNode(s.nodes[s.tasks[step.t].node], step.found), step.ok, step.c, "parent action completed");
    }
    if step.Ensured? && step.imageFailure.Some? {
      CommitKeepsLoop(Exit(s, step.t), s.tasks[step.t].node, ImageFailed(s.nodes[s.tasks[step.t].node], step.imageFailure.value), step.ok, step.c,
                      "parent action failed");
    }
  }

  lemma LateKeepsLoop(s: Exec, step: Step, s': Exec)
    requires LateStep(step) && LateNext(s, step, s')
    ensures s'.loop.scheduler == s.loop.scheduler
  {
    hide ClosesBelow, OutcomeOf, AttemptStands, CommitAndClose;
    if step.FinishTask? {
      CommitKeepsLoop(Leave(s, step.t), s.tasks[step.t].node, OutcomeOf(s, step.t), step.ok, step.c, "parent action completed");
    }
  }

  lemma CallKeepsLoop(s: Exec, step: Step, s': Exec)
    requires CallStep(step) && CallNext(s, step, s')
    ensures s'.loop.scheduler == s.loop.scheduler
  {
    hide Over, CanReclaim;
  }

  lemma CloseKeepsLoop(s: Exec, step: Step, s': Exec)
    requires CloseStep(step) && CloseNext(s, step, s')
    ensures s'.loop.scheduler == s.loop.scheduler || (step.ReturnByRoot? && s.loop.scheduler.Scheduling?)
  {
    hide CloseSet, ClosesBelow, CommitAndClose;
    if step.CancelTree? {
      CommitKeepsLoop(CancelAttempt(s, step.id), step.id, CanceledAction(s.nodes[step.id]), step.ok, step.c, "ancestor canceled");
    }
  }

  lemma RestKeepsLoop(s: Exec, step: Step, s': Exec)
    requires Next(s, step, s') && !LoopStep(step) && !EarlyStep(step) && !LateStep(step) && !CallStep(step) && !CloseStep(step)
    ensures s'.loop.scheduler == s.loop.scheduler
  {
    hide LostEntries, AllDone, Lost;
  }

  /** A timer wakes the loop exactly for the pending attempt it was armed for, and is gone. */
  lemma TimersWakeExactly(s: Exec, timer: Timer, s': Exec)
    requires Next(s, Fire(timer), s')
    ensures timer.at <= s.loop.now && !s.loop.ctxDone && s'.loop.timers == s.loop.timers - {timer} && s'.nodes == s.nodes
    ensures s'.loop.wake <==>
              || s.loop.wake
              || (timer.id in s.nodes && s.nodes[timer.id].state.Pending? && s.nodes[timer.id].attempt == timer.attempt)
  {
  }

  // ---- Goroutines -----------------------------------------------------------

  /** The run's context has ended, or a write was refused. */
  predicate Stopped(s: Exec) {
    s.loop.ctxDone || s.loop.failed
  }

  predicate InProgress(n: Node) {
    n.state.Ready? || n.state.Waiting? || n.state.Running?
  }

  /** The goroutine last started for the node is alive. */
  predicate DrivenBy(s: Exec, id: Id, t: TaskId) {
    id in s.book.worker && s.book.worker[id] == t && t in s.tasks && s.tasks[t].node == id && s.tasks[t].Alive()
  }

  ghost predicate Driven(s: Exec) {
    !Stopped(s) ==> forall id :: id in s.nodes && InProgress(s.nodes[id]) ==> id in s.book.worker && DrivenBy(s, id, s.book.worker[id])
  }

  /** A goroutine stops only with its run, with its node ended, or to let it be retried. */
  lemma ExitsExactly(s: Exec, step: Step, s': Exec, t: TaskId)
    requires Inv(s) && Next(s, step, s') && t in s.tasks && s.tasks[t].Alive()
    ensures t in s'.tasks && s'.tasks[t].node == s.tasks[t].node && s.tasks[t].node in s'.nodes
    ensures s'.tasks[t].Alive() || Stopped(s') || !InProgress(s'.nodes[s.tasks[t].node])
  {
    hide Next, Inv;
    OwnGoroutine(s, t);
    Reports.StepChanges(s, step, s', s.tasks[t].node);
    hide Reports.GoesOn, Reports.OwnEnd, Reports.ClosedAlong;
    if Reports.OwnStep(step, t) {
      if EarlyStep(step) { EarlyExits(s, step, s', t); } else { LateExits(s, step, s', t); }
    } else {
      Reports.StepKeepsTask(s, step, s', t);
    }
  }

  lemma EarlyExits(s: Exec, step: Step, s': Exec, t: TaskId)
    requires Inv(s) && Next(s, step, s') && EarlyStep(step) && step.t == t && t in s.tasks && s.tasks[t].Alive()
    ensures t in s'.tasks && s'.tasks[t].node == s.tasks[t].node
    ensures s.tasks[t].node in s'.nodes
    ensures s'.tasks[t].Alive() || Stopped(s') || !InProgress(s'.nodes[s.tasks[t].node])
  {
    hide Inv, LoopNext, ClockNext, DispatchNext, EarlyNext, LateNext, CallNext, CloseNext, AddNext;
    OwnGoroutine(s, t);
    if step.LookedUp? { LookedUpExits(s, step, s', t); }
    else if step.Ensured? { EnsuredExits(s, step, s', t); }
    else { BeginExits(s, step, s', t); }
  }

  lemma BeginExits(s: Exec, step: Step, s': Exec, t: TaskId)
    requires (step.BeginTask? || step.AcquireAborted?) && EarlyNext(s, step, s') && step.t == t && t in s.tasks && s.tasks[t].Alive()
    requires s.tasks[t].node in s.nodes && Fits(s.nodes[s.tasks[t].node], s.tasks[t])
    ensures t in s'.tasks && s'.tasks[t].node == s.tasks[t].node && s.tasks[t].node in s'.nodes
    ensures s'.tasks[t].Alive() || Stopped(s') || !InProgress(s'.nodes[s.tasks[t].node])
  {
  }

  /** What a commit with a close leaves of its own node. */
  lemma CommitEnds(s: Exec, id: Id, next: Node, ok: bool, c: Closing, reason: string, t: TaskId)
    requires id in s.nodes && next.Terminal() && t in s.tasks
    ensures var s' := CommitAndClose(s, id, next, ok, c, reason);
            && t in s'.tasks && s'.tasks[t].node == s.tasks[t].node && id in s'.nodes && (Stopped(s') || s'.nodes[id].Terminal())
  {
  }

  lemma LookedUpExits(s: Exec, step: Step, s': Exec, t: TaskId)
    requires step.LookedUp? && EarlyNext(s, step, s') && step.t == t && t in s.tasks && s.tasks[t].Alive()
    ensures t in s'.tasks && s'.tasks[t].node == s.tasks[t].node && s.tasks[t].node in s'.nodes
    ensures s'.tasks[t].Alive() || Stopped(s') || !InProgress(s'.nodes[s.tasks[t].node])
  {
    hide ClosesBelow, CommitAndClose;
    if !Abandons(s, t) && step.found.Hit? {
      CommitEnds(Exit(s, t), s.tasks[t].node, HitNode(s.nodes[s.tasks[t].node], step.found), step.ok, step.c, "parent action completed", t);
    }
  }

  lemma EnsuredExits(s: Exec, step: Step, s': Exec, t: TaskId)
    requires step.Ensured? && EarlyNext(s, step, s') && step.t == t && t in s.tasks && s.tasks[t].Alive()
    ensures t in s'.tasks && s'.tasks[t].node == s.tasks[t].node && s.tasks[t].node in s'.nodes
    ensures s'.tasks[t].Alive() || Stopped(s') || !InProgress(s'.nodes[s.tasks[t].node])
  {
    hide ClosesBelow, CommitAndClose;
    if !Abandons(s, t) && step.imageFailure.Some? {
      CommitEnds(Exit(s, t), s.tasks[t].node, ImageFailed(s.nodes[s.tasks[t].node], step.imageFailure.value), step.ok, step.c, "parent action failed", t);
    }
  }

  lemma LateExits(s: Exec, step: Step, s': Exec, t: TaskId)
    requires Inv(s) && Next(s, step, s') && LateStep(step) && step.t == t && t in s.tasks && s.tasks[t].Alive()
    ensures t in s'.tasks && s'.tasks[t].node == s.tasks[t].node
    ensures s.tasks[t].node in s'.nodes
    ensures s'.tasks[t].Alive() || Stopped(s') || !InProgress(s'.nodes[s.tasks[t].node])
  {
    hide Inv, LoopNext, ClockNext, DispatchNext, EarlyNext, LateNext, CallNext, CloseNext, AddNext;
    OwnGoroutine(s, t);
    if step.FinishTask? { FinishExitsRightly(s, step, s', t); } else { StartExits(s, step, s', t); }
  }

  lemma StartExits(s: Exec, step: Step, s': Exec, t: TaskId)
    requires LateStep(step) && LateNext(s, step, s') && !step.FinishTask? && step.t == t && t in s.tasks && s.tasks[t].Alive()
    requires s.tasks[t].node in s.nodes && Fits(s.nodes[s.tasks[t].node], s.tasks[t])
    ensures t in s'.tasks && s'.tasks[t].node == s.tasks[t].node && s.tasks[t].node in s'.nodes
    ensures s'.tasks[t].Alive() || Stopped(s') || !InProgress(s'.nodes[s.tasks[t].node])
  {
  }

  lemma FinishExitsRightly(s: Exec, step: Step, s': Exec, t: TaskId)
    requires Inv(s) && step.FinishTask? && LateNext(s, step, s') && step.t == t
    ensures t in s'.tasks && s'.tasks[t].node == s.tasks[t].node && s.tasks[t].node in s'.nodes
    ensures Stopped(s') || !InProgress(s'.nodes[s.tasks[t].node])
  {
    hide Inv, ClosesBelow, CommitAndClose, OutcomeOf, AttemptStands;
    Reports.StandsExactly(s, t);
    Reports.OutcomeIs(s, t);
    if AttemptStands(s, t) && !OutcomeOf(s, t).state.Pending? {
      CommitEnds(Leave(s, t), s.tasks[t].node, OutcomeOf(s, t), step.ok, step.c, "parent action completed", t);
    }
  }

  lemma CommitKeepsWorkers(s: Exec, id: Id, next: Node, ok: bool, c: Closing, reason: string)
    ensures CommitAndClose(s, id, next, ok, c, reason).book.worker == s.book.worker
  {
  }

  lemma EarlyKeepsWorkers(s: Exec, step: Step, s': Exec)
    requires EarlyStep(step) && EarlyNext(s, step, s')
    ensures s'.book.worker == s.book.worker
  {
    hide ClosesBelow, HitNode, ImageFailed, CommitAndClose;
    if step.LookedUp? && step.found.Hit? {
      CommitKeepsWorkers(Exit(s, step.t), s.tasks[step.t].node, HitNode(s.nodes[s.tasks[step.t].node], step.found), step.ok, step.c, "parent action completed");
    }
    if step.Ensured? && step.imageFailure.Some? {
      CommitKeepsWorkers(Exit(s, step.t), s.tasks[step.t].node, ImageFailed(s.nodes[s.tasks[step.t].node], step.imageFailure.value), step.ok, step.c,
                         "parent action failed");
    }
  }

  lemma LateKeepsWorkers(s: Exec, step: Step, s': Exec)
    requires LateStep(step) && LateNext(s, step, s')
    ensures s'.book.worker == s.book.worker
  {
    hide ClosesBelow, OutcomeOf, AttemptStands, CommitAndClose;
    if step.FinishTask? {
      CommitKeepsWorkers(Leave(s, step.t), s.tasks[step.t].node, OutcomeOf(s, step.t), step.ok, step.c, "parent action completed");
    }
  }

  lemma CallKeepsWorkers(s: Exec, step: Step, s': Exec)
    requires CallStep(step) && CallNext(s, step, s')
    ensures s'.book.worker == s.book.worker
  {
    hide Over, CanReclaim;
  }

  lemma RestKeepsWorkers(s: Exec, step: Step, s': Exec)
    requires Next(s, step, s') && !DispatchStep(step) && !EarlyStep(step) && !LateStep(step) && !CallStep(step)
    ensures s'.book.worker == s.book.worker
  {
    hide CloseSet, ClosesBelow, Settled, RootLive;
  }

  /** Goroutines are started for no other reason than that a node is made ready. */
  lemma WorkersStay(s: Exec, step: Step, s': Exec)
    requires Next(s, step, s') && !DispatchStep(step)
    ensures s'.book.worker == s.book.worker
  {
    hide LoopNext, ClockNext, DispatchNext, EarlyNext, LateNext, CallNext, CloseNext, AddNext;
    if EarlyStep(step) { EarlyKeepsWorkers(s, step, s'); }
    else if LateStep(step) { LateKeepsWorkers(s, step, s'); }
    else if CallStep(step) { CallKeepsWorkers(s, step, s'); }
    else { RestKeepsWorkers(s, step, s'); }
  }

  lemma DispatchDrives(s: Exec, step: Step, s': Exec, id: Id)
    requires DispatchStep(step) && DispatchNext(s, step, s') && id in s.nodes && id in s'.nodes && InProgress(s'.nodes[id]) && !Stopped(s')
    ensures (InProgress(s.nodes[id]) && (id in s.book.worker ==> id in s'.book.worker && s'.book.worker[id] == s.book.worker[id]))
            || (id in s'.book.worker && DrivenBy(s', id, s'.book.worker[id]))
  {
    hide LostEntries, AllDone, Lost;
  }

  lemma StoppedStays(s: Exec, step: Step, s': Exec)
    requires Next(s, step, s') && Stopped(s)
    ensures Stopped(s')
  {
    hide Next;
    if s.loop.ctxDone { Reports.ContextStaysEnded(s, step, s'); } else { ExecClosure.FailedStays(s, step, s'); }
  }

  /** Which nodes come to be in progress. */
  lemma ProgressComes(s: Exec, step: Step, s': Exec, id: Id)
    requires Inv(s) && Next(s, step, s') && id in s.nodes
    ensures id in s'.nodes
    ensures InProgress(s'.nodes[id]) ==> InProgress(s.nodes[id]) || step.DispatchReady?
  {
    hide Next, Inv;
    Reports.StepChanges(s, step, s', id);
  }

  lemma StepKeepsDriven(s: Exec, step: Step, s': Exec)
    requires Inv(s) && Next(s, step, s') && Driven(s) && FromRows(step)
    ensures Driven(s')
  {
    hide Next, Inv;
    if !Stopped(s') {
      if Stopped(s) { StoppedStays(s, step, s'); }
      forall id | id in s'.nodes && InProgress(s'.nodes[id]) ensures id in s'.book.worker && DrivenBy(s', id, s'.book.worker[id]) {
        if id !in s.nodes {
          AddedIsRestored(s, step, s', id);
        } else {
          NodeIsDriven(s, step, s', id);
        }
      }
    }
  }

  lemma AddedIsRestored(s: Exec, step: Step, s': Exec, id: Id)
    requires Inv(s) && Next(s, step, s') && FromRows(step) && id !in s.nodes && id in s'.nodes
    ensures !InProgress(s'.nodes[id])
  {
    hide Next, Inv;
    Reports.OnlyAdded(s, step, s', id);
    AddIs(s, step, s');
  }

  lemma NodeIsDriven(s: Exec, step: Step, s': Exec, id: Id)
    requires Inv(s) && Next(s, step, s') && Driven(s) && !Stopped(s) && !Stopped(s') && id in s.nodes && id in s'.nodes && InProgress(s'.nodes[id])
    ensures id in s'.book.worker && DrivenBy(s', id, s'.book.worker[id])
  {
    hide Next, Inv;
    ProgressComes(s, step, s', id);
    if DispatchStep(step) {
      DispatchIs(s, step, s');
      DispatchDrives(s, step, s', id);
    } else {
      WorkersStay(s, step, s');
    }
    if InProgress(s.nodes[id]) { ExitsExactly(s, step, s', s.book.worker[id]); }
  }

  /** No node is left behind: while its run goes on, every node that is ready, waiting or running has a
      live goroutine, the one last started for it. */
  lemma {:induction false} NodesInProgressAreDriven(trace: seq<Exec>, steps: seq<Step>, i: nat)
    requires GoodRun(trace, steps) && RestoredRun(trace, steps) && i < |trace|
    ensures Driven(trace[i])
  {
    hide Next, Inv;
    if i > 0 {
      hide GoodRun, Driven;
      NodesInProgressAreDriven(trace, steps, i - 1);
      RunInv(trace, steps, i - 1);
      NthStep(trace, steps, i - 1);
      StepKeepsDriven(trace[i - 1], steps[i - 1], trace[i]);
    }
  }
}
