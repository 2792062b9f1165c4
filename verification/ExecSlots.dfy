/** The slot pool shared by all executors of a worker. */
module ExecSlots {
  import opened Base
  import opened Graph
  import opened Exec
  import opened ExecInvariants
  import opened ExecSteps
  import opened ExecRuns

  // ---- Who holds slots of one executor --------------------------------------

  /** A slot is held by an attempt, or by a `resume` call on its way to restore one. */
  datatype Holder = ByTask(t: TaskId) | ByCall(k: CallId)

  predicate Holds(s: Exec, h: Holder) {
    match h
    case ByTask(t) => t in s.tasks && s.tasks[t].held
    case ByCall(k) => k in s.calls && s.calls[k].phase.GotSlot?
  }

  function Holders(s: Exec): (hs: set<Holder>)
    ensures forall h :: h in hs <==> Holds(s, h)
  {
    (set t | t in s.tasks && s.tasks[t].held :: ByTask(t)) + (set k | k in s.calls && s.calls[k].phase.GotSlot? :: ByCall(k))
  }

  /** How often the step takes a slot from the pool. */
  function Acquires(s: Exec, step: Step): nat {
    if step.Acquire? || step.Reacquire? then 1 else 0
  }

  /** How often the step gives a slot back. */
  function Releases(s: Exec, step: Step): nat {
    match step
    case Launch(t, ok) =>
      if At(s, t, Acquired) && (!s.nodes[s.tasks[t].node].state.Ready? || s.loop.ctxDone || !Accepted(s, ok)) then 1 else 0
    case FinishTask(t, ok, c) => if t in s.tasks && s.tasks[t].held then 1 else 0
    case WaitStart(k, parent, attempt, child, ok) =>
      if CanWait(s, k, parent, attempt, child) && !s.nodes[child].Terminal() && s.tasks[s.active[parent]].held
         && Accepted(s, ok) then 1 else 0
    case Restore(k, ok) =>
      if CallAt(s, k, GotSlot) && s.calls[k].parent in s.nodes && !CanReclaim(s, k) then 1 else 0
    case _ => 0
  }

  ghost predicate SameHolders(s: Exec, s': Exec) {
    forall h :: Holds(s', h) <==> Holds(s, h)
  }

  ghost predicate Gains(s: Exec, s': Exec, g: Holder) {
    !Holds(s, g) && forall h :: Holds(s', h) <==> Holds(s, h) || h == g
  }

  ghost predicate Loses(s: Exec, s': Exec, g: Holder) {
    Holds(s, g) && forall h :: Holds(s', h) <==> Holds(s, h) && h != g
  }

  /** A slot passes from a `resume` call to the attempt it restores. */
  ghost predicate Passes(s: Exec, s': Exec, from_: Holder, into: Holder) {
    && Holds(s, from_) && !Holds(s, into)
    && forall h :: Holds(s', h) <==> (Holds(s, h) && h != from_) || h == into
  }

  /** What the holders do in a step: a slot taken, a slot given back, a slot handed over
      inside the executor, or nothing. */
  ghost predicate Balanced(s: Exec, step: Step, s': Exec) {
    || (Acquires(s, step) == 1 && Releases(s, step) == 0 && exists g :: Gains(s, s', g))
    || (Acquires(s, step) == 0 && Releases(s, step) == 1 && exists g :: Loses(s, s', g))
    || (Acquires(s, step) == 0 && Releases(s, step) == 0 &&
          (SameHolders(s, s') || exists from_, into :: Passes(s, s', from_, into)))
  }

  /** No call gets or gives up a slot. */
  predicate SameSlotCalls(s: Exec, s': Exec) {
    && (forall k :: k in s.calls && s.calls[k].phase.GotSlot? ==> k in s'.calls && s'.calls[k].phase.GotSlot?)
    && (forall k :: k in s'.calls && s'.calls[k].phase.GotSlot? ==> k in s.calls && s.calls[k].phase.GotSlot?)
  }

  /** Moving one goroutine. */
  lemma TaskMoves(s: Exec, s': Exec, t: TaskId, task: Task)
    requires t in s.tasks && s'.tasks == s.tasks[t := task] && SameSlotCalls(s, s')
    ensures task.held == s.tasks[t].held ==> SameHolders(s, s')
    ensures task.held && !s.tasks[t].held ==> Gains(s, s', ByTask(t))
    ensures !task.held && s.tasks[t].held ==> Loses(s, s', ByTask(t))
  {
  }

  lemma CloseSlots(s: Exec, c: Closing, reason: string)
    ensures SameHolders(s, Close(s, c, reason))
  {
  }

  lemma CommitAndCloseKeepsHolders(s: Exec, id: Id, next: Node, ok: bool, c: Closing, reason: string)
    ensures SameHolders(s, CommitAndClose(s, id, next, ok, c, reason))
  {
    hide Close;
    CloseSlots(Wrote(s, id, next), c, reason);
  }

  // ---- One step -------------------------------------------------------------

  lemma LoopSlots(s: Exec, step: Step, s': Exec)
    requires LoopStep(step) && LoopNext(s, step, s')
    ensures SameHolders(s, s')
  {
  }

  lemma ClockSlots(s: Exec, step: Step, s': Exec)
    requires ClockStep(step) && ClockNext(s, step, s')
    ensures SameHolders(s, s')
  {
  }

  lemma DispatchSlots(s: Exec, step: Step, s': Exec)
    requires DispatchStep(step) && DispatchNext(s, step, s')
    ensures SameHolders(s, s')
  {
    hide Settled, RootLive;
  }

  lemma CloseAllSlots(s: Exec, step: Step, s': Exec)
    requires CloseStep(step) && CloseNext(s, step, s') && !step.CancelTree?
    ensures SameHolders(s, s')
  {
    hide Close, ClosingPossible;
    CloseSlots(s, step.c, if step.CancelAll? then "run canceled" else "root action completed");
  }

  lemma AddSlots(s: Exec, parent: Id, id: Id, node: Node)
    ensures SameHolders(s, Add(s, parent, id, node))
  {
  }

  lemma CancelSubtreeSlots(s: Exec, id: Id, ok: bool, c: Closing)
    requires id in s.nodes
    ensures SameHolders(s, CancelSubtree(s, id, ok, c))
  {
    hide Close, CommitAndClose;
    if s.nodes[id].Terminal() {
      CloseSlots(s, c, "ancestor canceled");
    } else {
      CommitAndCloseKeepsHolders(CancelAttempt(s, id), id, CanceledAction(s.nodes[id]), ok, c, "ancestor canceled");
    }
  }

  /** Before the slot pool a goroutine holds nothing. */
  lemma ExitEarlySlots(s: Exec, t: TaskId)
    requires t in s.tasks && !s.tasks[t].held
    ensures SameHolders(s, Exit(s, t)) && SameHolders(s, Exit(Rejected(s), t))
  {
    TaskMoves(s, Exit(s, t), t, ExitedTask(s.tasks[t]));
    TaskMoves(s, Exit(Rejected(s), t), t, ExitedTask(s.tasks[t]));
  }

  lemma ImageOrAcquireSlots(s: Exec, t: TaskId, ok: bool)
    requires t in s.tasks && s.tasks[t].node in s.nodes && !s.tasks[t].held
    ensures SameHolders(s, ImageOrAcquire(s, t, ok))
  {
    hide Exit;
    ExitEarlySlots(s, t);
  }

  lemma ExitAndCloseSlots(s: Exec, t: TaskId, id: Id, next: Node, ok: bool, c: Closing, reason: string)
    requires t in s.tasks && !s.tasks[t].held
    ensures SameHolders(s, CommitAndClose(Exit(s, t), id, next, ok, c, reason))
  {
    hide CommitAndClose, Exit;
    ExitEarlySlots(s, t);
    CommitAndCloseKeepsHolders(Exit(s, t), id, next, ok, c, reason);
  }

  lemma BeginSlots(s: Exec, t: TaskId, ok: bool)
    requires At(s, t, Spawned) && !s.tasks[t].held
    ensures SameHolders(s, Begin(s, t, ok))
  {
    hide ImageOrAcquire, Exit;
    ExitEarlySlots(s, t);
    ImageOrAcquireSlots(s, t, ok);
  }

  lemma LookupSlots(s: Exec, t: TaskId, found: Lookup, ok: bool, c: Closing)
    requires At(s, t, LookingUp) && !s.tasks[t].held
    ensures SameHolders(s, LookupReturns(s, t, found, ok, c))
  {
    hide ImageOrAcquire, Exit, CommitAndClose, HitNode, SameHolders;
    ExitEarlySlots(s, t);
    ImageOrAcquireSlots(s, t, ok);
    if found.Hit? {
      ExitAndCloseSlots(s, t, s.tasks[t].node, HitNode(s.nodes[s.tasks[t].node], found), ok, c, "parent action completed");
    }
  }

  lemma ImageReturnsSlots(s: Exec, t: TaskId, failure: Option<string>, ok: bool, c: Closing)
    requires At(s, t, Ensuring) && !s.tasks[t].held
    ensures SameHolders(s, ImageReturns(s, t, failure, ok, c))
  {
    hide Exit, CommitAndClose, ImageFailed, SameHolders;
    ExitEarlySlots(s, t);
    var id := s.tasks[t].node;
    var next := s.tasks[t].(phase := Acquiring);
    TaskMoves(s, Move(s, t, MadeReady(s.nodes[id]), next), t, next);
    if failure.Some? {
      ExitAndCloseSlots(s, t, id, ImageFailed(s.nodes[id], failure.value), ok, c, "parent action failed");
    }
  }

  lemma EarlyHoldsNothing(s: Exec, t: TaskId)
    requires Goroutines(s) && t in s.tasks && !s.tasks[t].phase.Acquired? && !s.tasks[t].Attempting()
    ensures !s.tasks[t].held
  {
    assert TaskOk(s, t);
  }

  lemma EarlyStepSlots(s: Exec, step: Step, s': Exec)
    requires Goroutines(s) && EarlyStep(step) && EarlyNext(s, step, s')
    ensures SameHolders(s, s')
  {
    hide Goroutines, ClosesBelow, HitNode, ImageFailed, Begin, LookupReturns, ImageReturns, Exit, SameHolders;
    EarlyHoldsNothing(s, step.t);
    if step.BeginTask? { BeginSlots(s, step.t, step.ok); }
    else if step.LookedUp? { LookupSlots(s, step.t, step.found, step.ok, step.c); }
    else if step.Ensured? { ImageReturnsSlots(s, step.t, step.imageFailure, step.ok, step.c); }
    else { ExitEarlySlots(s, step.t); }
  }

  lemma FinishSlotsGo(s: Exec, t: TaskId, ok: bool, c: Closing)
    requires At(s, t, Returned)
    ensures SameHolders(Leave(s, t), Finish(s, t, ok, c))
  {
    hide Leave, CommitAndClose, OutcomeOf, AttemptStands;
    if AttemptStands(s, t) && !OutcomeOf(s, t).state.Pending? {
      CommitAndCloseKeepsHolders(Leave(s, t), s.tasks[t].node, OutcomeOf(s, t), ok, c, "parent action completed");
    }
  }

  lemma AcquireSlots(s: Exec, step: Step, s': Exec)
    requires Goroutines(s) && LateStep(step) && LateNext(s, step, s') && (step.Acquire? || step.Return?)
    ensures Balanced(s, step, s')
  {
    assert TaskOk(s, step.t);
    hide Goroutines, Balanced, Gains, SameHolders;
    TaskMoves(s, s', step.t, s'.tasks[step.t]);
    if step.Acquire? { TakesSlot(s, step, s', ByTask(step.t)); } else { KeepsSlots(s, step, s'); }
  }

  lemma TakesSlot(s: Exec, step: Step, s': Exec, g: Holder)
    requires Gains(s, s', g) && Acquires(s, step) == 1 && Releases(s, step) == 0
    ensures Balanced(s, step, s')
  {
    hide Gains;
  }

  lemma GivesSlot(s: Exec, step: Step, s': Exec, g: Holder)
    requires Loses(s, s', g) && Acquires(s, step) == 0 && Releases(s, step) == 1
    ensures Balanced(s, step, s')
  {
    hide Loses;
  }

  lemma KeepsSlots(s: Exec, step: Step, s': Exec)
    requires SameHolders(s, s') && Acquires(s, step) == 0 && Releases(s, step) == 0
    ensures Balanced(s, step, s')
  {
    hide SameHolders;
  }

  lemma LaunchHolders(s: Exec, t: TaskId)
    requires At(s, t, Acquired) && s.tasks[t].held
    ensures SameHolders(s, Launched(s, t))
  {
    hide Charged;
    TaskMoves(s, Launched(s, t), t, Launched(s, t).tasks[t]);
  }

  lemma RejectedHolders(s: Exec, t: TaskId)
    requires t in s.tasks && s.tasks[t].held
    ensures Loses(s, Exit(s, t), ByTask(t)) && Loses(s, Exit(Rejected(s), t), ByTask(t))
  {
    hide Loses;
    TaskMoves(s, Exit(s, t), t, ExitedTask(s.tasks[t]));
    TaskMoves(s, Exit(Rejected(s), t), t, ExitedTask(s.tasks[t]));
  }

  lemma LaunchSlots(s: Exec, t: TaskId, ok: bool)
    requires Goroutines(s) && At(s, t, Acquired)
    ensures Balanced(s, Launch(t, ok), StartAttempt(s, t, ok))
  {
    assert s.tasks[t].held by { assert TaskOk(s, t); }
    hide Goroutines, Balanced, Loses, SameHolders, Accepted, Rejected, Launched, Exit;
    LaunchHolders(s, t);
    RejectedHolders(s, t);
    if !s.nodes[s.tasks[t].node].state.Ready? || s.loop.ctxDone {
      GivesSlot(s, Launch(t, ok), Exit(s, t), ByTask(t));
    } else if !Accepted(s, ok) {
      GivesSlot(s, Launch(t, ok), Exit(Rejected(s), t), ByTask(t));
    } else {
      KeepsSlots(s, Launch(t, ok), Launched(s, t));
    }
  }

  lemma FinishTaskSlots(s: Exec, t: TaskId, ok: bool, c: Closing)
    requires Goroutines(s) && At(s, t, Returned)
    ensures Balanced(s, FinishTask(t, ok, c), Finish(s, t, ok, c))
  {
    var left := Leave(s, t);
    TaskMoves(s, left, t, left.tasks[t]);
    FinishSlotsGo(s, t, ok, c);
    hide Goroutines, Balanced, Finish;
    if s.tasks[t].held {
      GivesSlot(s, FinishTask(t, ok, c), Finish(s, t, ok, c), ByTask(t));
    } else {
      KeepsSlots(s, FinishTask(t, ok, c), Finish(s, t, ok, c));
    }
  }

  lemma WaitSlots(s: Exec, k: CallId, parent: Id, attempt: int, child: Id, ok: bool)
    requires Goroutines(s) && CanWait(s, k, parent, attempt, child)
    ensures Balanced(s, WaitStart(k, parent, attempt, child, ok), WaitBegins(s, k, parent, attempt, child, ok))
  {
    hide Goroutines, Balanced, Loses, SameHolders, Counting, Holds;
    var s' := WaitBegins(s, k, parent, attempt, child, ok);
    var t := s.active[parent];
    if s.nodes[child].Terminal() || !(s.tasks[t].held && Accepted(s, ok)) {
      if !s.nodes[child].Terminal() && !s.tasks[t].held { CountingSlots(s, k, parent, attempt, child); }
      else { CallsOnly(s, s', k); }
      KeepsSlots(s, WaitStart(k, parent, attempt, child, ok), s');
    } else {
      var w := Wrote(s, parent, WaitingForChildren(s.nodes[parent]));
      CountingSlots(w, k, parent, attempt, child);
      SameSlots(s, w, s', t);
      GivesSlot(s, WaitStart(k, parent, attempt, child, ok), s', ByTask(t));
    }
  }

  /** A call that has no slot changes nothing. */
  lemma CallsOnly(s: Exec, s': Exec, k: CallId)
    requires s'.tasks == s.tasks
    requires s'.calls == s.calls || (k !in s.calls && k in s'.calls && s'.calls == s.calls[k := s'.calls[k]] && !s'.calls[k].phase.GotSlot?)
    ensures SameHolders(s, s')
  {
  }

  lemma CountingSlots(s: Exec, k: CallId, parent: Id, attempt: int, child: Id)
    requires parent in s.active && s.active[parent] in s.tasks && k !in s.calls
    ensures var t := s.active[parent];
            var s' := Counting(s, k, parent, attempt, child);
            if s.tasks[t].held then Loses(s, s', ByTask(t)) else SameHolders(s, s')
  {
    var s' := Counting(s, k, parent, attempt, child);
    TaskMoves(s, s', s.active[parent], s'.tasks[s.active[parent]]);
  }

  lemma SameSlots(s: Exec, w: Exec, s': Exec, t: TaskId)
    requires w.tasks == s.tasks && w.calls == s.calls && Loses(w, s', ByTask(t))
    ensures Loses(s, s', ByTask(t))
  {
  }

  lemma UnblockSlots(s: Exec, step: Step, s': Exec)
    requires Goroutines(s) && CallStep(step) && CallNext(s, step, s') && (step.WaitEnd? || step.Lock?)
    ensures Balanced(s, step, s')
  {
    hide Goroutines, Balanced, SameHolders, Over;
    var t := s.calls[step.k].task;
    TaskMoves(s, s', t, s'.tasks[t]);
    KeepsSlots(s, step, s');
  }

  lemma PhaseSlots(s: Exec, step: Step, s': Exec)
    requires CallStep(step) && CallNext(s, step, s') && (step.Drain? || step.CheckAgain? || step.ReacquireAborted?)
    ensures Balanced(s, step, s')
  {
    hide Balanced, Over, ParentActive;
    KeepsSlots(s, step, s');
  }

  lemma ReacquireSlots(s: Exec, k: CallId)
    requires CallAt(s, k, Reacquiring)
    ensures Balanced(s, Reacquire(k), SetPhase(s, k, GotSlot))
  {
    hide Balanced;
    TakesSlot(s, Reacquire(k), SetPhase(s, k, GotSlot), ByCall(k));
  }

  lemma CallIsOk(s: Exec, k: CallId)
    requires Goroutines(s) && k in s.calls
    ensures CallOk(s, k)
  {
  }

  lemma ReclaimPasses(s: Exec, k: CallId, ok: bool)
    requires CallAt(s, k, GotSlot) && s.calls[k].parent in s.nodes && CanReclaim(s, k) && CallOk(s, k)
    ensures Passes(s, Reclaim(s, k, ok), ByCall(k), ByTask(s.calls[k].task))
  {
    hide CanReclaim, Accepted;
  }

  lemma ResumedLoses(s: Exec, k: CallId)
    requires CallAt(s, k, GotSlot)
    ensures Loses(s, Resumed(s, k), ByCall(k))
  {
  }

  lemma PassesSlot(s: Exec, step: Step, s': Exec, from_: Holder, into: Holder)
    requires Passes(s, s', from_, into) && Acquires(s, step) == 0 && Releases(s, step) == 0
    ensures Balanced(s, step, s')
  {
    hide Passes;
  }

  lemma RestoreSlots(s: Exec, k: CallId, ok: bool)
    requires Goroutines(s) && CallAt(s, k, GotSlot) && s.calls[k].parent in s.nodes
    ensures Balanced(s, Restore(k, ok), Reclaim(s, k, ok))
  {
    hide Goroutines, CanReclaim, Over, Accepted, Balanced, Passes, Loses;
    if CanReclaim(s, k) {
      assert CallOk(s, k) by { CallIsOk(s, k); }
      ReclaimPasses(s, k, ok);
      PassesSlot(s, Restore(k, ok), Reclaim(s, k, ok), ByCall(k), ByTask(s.calls[k].task));
    } else {
      ResumedLoses(s, k);
      GivesSlot(s, Restore(k, ok), Reclaim(s, k, ok), ByCall(k));
    }
  }

  lemma CloseStepSlots(s: Exec, step: Step, s': Exec)
    requires CloseStep(step) && CloseNext(s, step, s')
    ensures SameHolders(s, s')
  {
    hide SameHolders, CancelSubtree, ClosesBelow, ClosingPossible, CloseSet;
    if step.CancelTree? { CancelSubtreeSlots(s, step.id, step.ok, step.c); } else { CloseAllSlots(s, step, s'); }
  }

  lemma AddStepSlots(s: Exec, step: Step, s': Exec)
    requires AddStep(step) && AddNext(s, step, s')
    ensures SameHolders(s, s')
  {
    hide SameHolders, CanAdd;
    AddSlots(s, step.parent, step.id, step.node);
  }

  lemma QuietSlots(s: Exec, step: Step, s': Exec)
    requires Goroutines(s) && Next(s, step, s') && !LateStep(step) && !CallStep(step)
    ensures SameHolders(s, s')
  {
    hide Goroutines, SameHolders, LoopNext, ClockNext, DispatchNext, EarlyNext, LateNext, CallNext, CloseNext, AddNext;
    if LoopStep(step) { LoopSlots(s, step, s'); }
    else if ClockStep(step) { ClockSlots(s, step, s'); }
    else if DispatchStep(step) { DispatchSlots(s, step, s'); }
    else if EarlyStep(step) { EarlyStepSlots(s, step, s'); }
    else if CloseStep(step) { CloseStepSlots(s, step, s'); }
    else { AddStepSlots(s, step, s'); }
  }

  lemma TaskStepBalanced(s: Exec, step: Step, s': Exec)
    requires Goroutines(s) && LateStep(step) && LateNext(s, step, s')
    ensures Balanced(s, step, s')
  {
    hide Goroutines, Balanced, StartAttempt, Finish, ClosesBelow, AttemptStands, OutcomeOf;
    if step.Acquire? { AcquireSlots(s, step, s'); }
    else if step.Return? { AcquireSlots(s, step, s'); }
    else if step.Launch? { LaunchSlots(s, step.t, step.ok); }
    else { FinishTaskSlots(s, step.t, step.ok, step.c); }
  }

  lemma CallStepBalanced(s: Exec, step: Step, s': Exec)
    requires Goroutines(s) && CallStep(step) && CallNext(s, step, s')
    ensures Balanced(s, step, s')
  {
    hide Goroutines, Balanced, Reclaim, WaitBegins, CanReclaim, Recheck, Resumed, Unblock, TakeMutex;
    if step.WaitStart? { WaitSlots(s, step.k, step.parent, step.attempt, step.child, step.ok); }
    else if step.WaitEnd? { UnblockSlots(s, step, s'); }
    else if step.Lock? { UnblockSlots(s, step, s'); }
    else if step.Drain? { PhaseSlots(s, step, s'); }
    else if step.CheckAgain? { PhaseSlots(s, step, s'); }
    else if step.ReacquireAborted? { PhaseSlots(s, step, s'); }
    else if step.Reacquire? { ReacquireSlots(s, step.k); }
    else { RestoreSlots(s, step.k, step.ok); }
  }

  /** Every step moves the holders exactly as it takes slots from the pool and gives them back. */
  lemma StepBalanced(s: Exec, step: Step, s': Exec)
    requires Goroutines(s) && Next(s, step, s')
    ensures Balanced(s, step, s')
  {
    hide Goroutines, Balanced, Next, SameHolders;
    if LateStep(step) {
      LateIs(s, step, s');
      TaskStepBalanced(s, step, s');
    } else if CallStep(step) {
      CallIs(s, step, s');
      CallStepBalanced(s, step, s');
    } else {
      QuietSlots(s, step, s');
      KeepsSlots(s, step, s');
    }
  }

  // ---- Many executors, one pool ---------------------------------------------

  /** The executors of one worker process by run, and the buffered channel they share. */
  datatype System = System(pool: int, capacity: nat, execs: map<Id, Exec>)

  datatype SystemStep = Begins(run: Id, nodes: Nodes, root: Id, now: Time, timers: set<Timer>) | Steps(run: Id, step: Step)

  /** `NewSlots`: a pool has room for at least one. */
  function NewPool(slots: int): System {
    System(0, Max(slots, 1), map[])
  }

  /** A slot is taken only while there is room; a slot is given back in any case. */
  ghost predicate SystemNext(y: System, step: SystemStep, y': System) {
    match step
    case Begins(run, nodes, root, now, timers) =>
      && run !in y.execs && Tree(nodes, root) && TimersArmed(nodes, timers, now)
      && y' == y.(execs := y.execs[run := Start(nodes, root, now, timers)])
    case Steps(run, st) =>
      && run in y.execs && run in y'.execs
      && Next(y.execs[run], st, y'.execs[run])
      && (Acquires(y.execs[run], st) == 1 ==> y.pool < y.capacity)
      && y' == y.(execs := y.execs[run := y'.execs[run]],
                  pool := y.pool + Acquires(y.execs[run], st) - Releases(y.execs[run], st))
  }

  ghost predicate IsSystemRun(trace: seq<System>, steps: seq<SystemStep>) {
    && |trace| == |steps| + 1
    && (exists slots :: trace[0] == NewPool(slots))
    && forall i :: 0 <= i < |steps| ==> SystemNext(trace[i], steps[i], trace[i + 1])
  }

  /** Everything that holds a slot, over all executors. */
  function AllHolders(execs: map<Id, Exec>): (hs: set<(Id, Holder)>)
    ensures forall p :: p in hs <==> p.0 in execs && Holds(execs[p.0], p.1)
  {
    set e, h | e in execs && h in Holders(execs[e]) :: (e, h)
  }

  ghost predicate SystemInv(y: System) {
    && (forall e :: e in y.execs ==> Inv(y.execs[e]))
    && y.pool == |AllHolders(y.execs)|
    && y.pool <= y.capacity
  }

  lemma CountGain(execs: map<Id, Exec>, e: Id, s': Exec, g: Holder)
    requires e in execs && Gains(execs[e], s', g)
    ensures |AllHolders(execs[e := s'])| == |AllHolders(execs)| + 1
  {
    hide AllHolders, Holds;
    assert AllHolders(execs[e := s']) == AllHolders(execs) + {(e, g)};
  }

  lemma CountLoss(execs: map<Id, Exec>, e: Id, s': Exec, g: Holder)
    requires e in execs && Loses(execs[e], s', g)
    ensures |AllHolders(execs[e := s'])| + 1 == |AllHolders(execs)|
  {
    hide AllHolders, Holds;
    assert AllHolders(execs[e := s']) == AllHolders(execs) - {(e, g)};
    assert (e, g) in AllHolders(execs);
  }

  lemma CountPass(execs: map<Id, Exec>, e: Id, s': Exec, from_: Holder, into: Holder)
    requires e in execs && Passes(execs[e], s', from_, into)
    ensures |AllHolders(execs[e := s'])| == |AllHolders(execs)|
  {
    hide AllHolders, Holds;
    assert AllHolders(execs[e := s']) == AllHolders(execs) - {(e, from_)} + {(e, into)};
    assert (e, from_) in AllHolders(execs) && (e, into) !in AllHolders(execs);
  }

  lemma SystemCounts(execs: map<Id, Exec>, e: Id, step: Step, s': Exec)
    requires e in execs && Balanced(execs[e], step, s')
    ensures |AllHolders(execs[e := s'])| == |AllHolders(execs)| + Acquires(execs[e], step) - Releases(execs[e], step)
    ensures Releases(execs[e], step) <= |AllHolders(execs)|
  {
    hide AllHolders, Holds, Acquires, Releases, Gains, Loses, Passes;
    var s := execs[e];
    if g :| Gains(s, s', g) {
      CountGain(execs, e, s', g);
    }
    if g :| Loses(s, s', g) {
      CountLoss(execs, e, s', g);
    }
    if from_, into :| Passes(s, s', from_, into) {
      CountPass(execs, e, s', from_, into);
    }
    if SameHolders(s, s') {
      assert AllHolders(execs[e := s']) == AllHolders(execs);
    }
  }

  lemma BeginsInv(y: System, run: Id, nodes: Nodes, root: Id, now: Time, timers: set<Timer>)
    requires SystemInv(y) && run !in y.execs && Tree(nodes, root) && TimersArmed(nodes, timers, now)
    ensures SystemInv(y.(execs := y.execs[run := Start(nodes, root, now, timers)]))
  {
    hide Inv, Tree, Holders, TimersArmed;
    StartInv(nodes, root, now, timers);
    assert AllHolders(y.execs[run := Start(nodes, root, now, timers)]) == AllHolders(y.execs);
  }

  lemma StepsInv(y: System, run: Id, st: Step, y': System)
    requires SystemInv(y) && SystemNext(y, Steps(run, st), y')
    ensures SystemInv(y') && Releases(y.execs[run], st) <= y.pool
  {
    hide Inv, Next, AllHolders, Acquires, Releases, SlotsOk, Balanced, Evolves, FromRows, CanAdd;
    StepKept(y.execs[run], st, y'.execs[run]);
    AcquiresOne(y.execs[run], st);
    InvGoroutines(y.execs[run]);
    StepBalanced(y.execs[run], st, y'.execs[run]);
    SystemCounts(y.execs, run, st, y'.execs[run]);
  }

  lemma AcquiresOne(s: Exec, step: Step)
    ensures Acquires(s, step) <= 1
  {
  }

  lemma SystemStepInv(y: System, step: SystemStep, y': System)
    requires SystemInv(y) && SystemNext(y, step, y')
    ensures SystemInv(y')
    ensures step.Steps? ==> Releases(y.execs[step.run], step.step) <= y.pool
  {
    hide SystemInv, Releases, Inv;
    match step
    case Begins(run, nodes, root, now, timers) => BeginsInv(y, run, nodes, root, now, timers);
    case Steps(run, st) => StepsInv(y, run, st, y');
  }

  lemma InvGoroutines(s: Exec)
    requires Inv(s)
    ensures Goroutines(s)
  {
  }

  lemma {:induction false} SystemRunInv(trace: seq<System>, steps: seq<SystemStep>, i: nat)
    requires IsSystemRun(trace, steps) && i < |trace|
    ensures SystemInv(trace[i])
  {
    hide SystemNext, Inv;
    if i > 0 {
      SystemRunInv(trace, steps, i - 1);
      SystemStepInv(trace[i - 1], steps[i - 1], trace[i]);
    }
  }

  /** Slot conservation: the pool's occupancy is the number of attempts and calls that hold
      a slot, it never exceeds the capacity, and no release ever meets an empty pool. */
  lemma SlotsAreConserved(trace: seq<System>, steps: seq<SystemStep>, i: nat)
    requires IsSystemRun(trace, steps) && i < |trace|
    ensures trace[i].pool == |AllHolders(trace[i].execs)| <= trace[i].capacity
    ensures i < |steps| && steps[i].Steps? ==>
              steps[i].run in trace[i].execs && Releases(trace[i].execs[steps[i].run], steps[i].step) <= trace[i].pool
  {
    hide SystemNext, Inv;
    SystemRunInv(trace, steps, i);
    if i < |steps| {
      SystemStepInv(trace[i], steps[i], trace[i + 1]);
      if steps[i].Steps? { StepsRun(trace[i], steps[i], trace[i + 1]); }
    }
  }

  lemma StepsRun(y: System, step: SystemStep, y': System)
    requires SystemNext(y, step, y') && step.Steps?
    ensures step.run in y.execs
  {
  }

  /** An exited `execute` goroutine leaves nothing behind in the pool. */
  lemma ExitedLeavesNothing(trace: seq<System>, steps: seq<SystemStep>, i: nat, e: Id, t: TaskId)
    requires IsSystemRun(trace, steps) && i < |trace| && e in trace[i].execs
    requires t in trace[i].execs[e].tasks && !trace[i].execs[e].tasks[t].Alive()
    ensures (e, ByTask(t)) !in AllHolders(trace[i].execs)
  {
    hide Inv, SystemNext, Holds, AllHolders;
    SystemRunInv(trace, steps, i);
    ExitedHoldsNothing(trace[i].execs[e], t);
  }

  lemma ExitedHoldsNothing(s: Exec, t: TaskId)
    requires Inv(s) && t in s.tasks && !s.tasks[t].Alive()
    ensures !Holds(s, ByTask(t))
  {
    assert TaskOk(s, t);
  }

  /** Snapshots and added nodes as rows describe them: pending or terminal. */
  predicate FromStored(step: SystemStep) {
    match step
    case Begins(_, nodes, _, _, _) => forall id :: id in nodes ==> nodes[id].Restored()
    case Steps(_, st) => FromRows(st)
  }

  lemma SystemStepSlots(y: System, step: SystemStep, y': System, e: Id)
    requires SystemInv(y) && SystemNext(y, step, y') && FromStored(step) && e in y'.execs
    requires e in y.execs ==> SlotsOk(y.execs[e])
    ensures SlotsOk(y'.execs[e])
  {
    hide Inv, Next, SlotsOk, Evolves, Acquires, Releases, CanAdd;
    match step
    case Begins(run, nodes, root, now, timers) => if e == run { StartSlots(y'.execs[run]); }
    case Steps(run, st) => if e == run { StepKept(y.execs[run], st, y'.execs[run]); }
  }

  /** In executors of stored rows running nodes hold slots. */
  lemma {:induction false} SystemSlots(trace: seq<System>, steps: seq<SystemStep>, i: nat, e: Id)
    requires IsSystemRun(trace, steps) && i < |trace| && (forall k :: 0 <= k < i ==> FromStored(steps[k])) && e in trace[i].execs
    ensures SlotsOk(trace[i].execs[e])
  {
    hide SystemNext, SystemInv, SlotsOk, FromStored;
    if i > 0 {
      SystemRunInv(trace, steps, i - 1);
      if e in trace[i - 1].execs { SystemSlots(trace, steps, i - 1, e); }
      SystemStepSlots(trace[i - 1], steps[i - 1], trace[i], e);
    }
  }

  /** The nodes running under a live context, over all executors. */
  function RunningNodes(execs: map<Id, Exec>): set<(Id, Id)> {
    set e, id | e in execs && id in execs[e].nodes && !execs[e].loop.ctxDone && execs[e].nodes[id].state.Running? :: (e, id)
  }

  function HolderOf(execs: map<Id, Exec>, p: (Id, Id)): (Id, Holder)
    requires p.0 in execs && p.1 in execs[p.0].active
  {
    (p.0, ByTask(execs[p.0].active[p.1]))
  }

  lemma {:induction false} InjectionBounds(execs: map<Id, Exec>, nodes: set<(Id, Id)>, holders: set<(Id, Holder)>)
    requires forall p :: p in nodes ==> p.0 in execs && p.1 in execs[p.0].active && HolderOf(execs, p) in holders
    requires forall p, q :: p in nodes && q in nodes && HolderOf(execs, p) == HolderOf(execs, q) ==> p == q
    ensures |nodes| <= |holders|
  {
    if nodes != {} {
      var p :| p in nodes;
      InjectionBounds(execs, nodes - {p}, holders - {HolderOf(execs, p)});
    }
  }

  /** However many executors of stored rows share the pool, no more nodes run at a time than it has room for. */
  lemma RunningNodesFitThePool(trace: seq<System>, steps: seq<SystemStep>, i: nat)
    requires IsSystemRun(trace, steps) && i < |trace| && forall k :: 0 <= k < i ==> FromStored(steps[k])
    ensures |RunningNodes(trace[i].execs)| <= trace[i].capacity
  {
    SystemRunInv(trace, steps, i);
    var execs := trace[i].execs;
    forall p | p in RunningNodes(execs)
      ensures p.1 in execs[p.0].active && HolderOf(execs, p) in AllHolders(execs)
      ensures execs[p.0].active[p.1] in execs[p.0].tasks && execs[p.0].tasks[execs[p.0].active[p.1]].node == p.1
    {
      SystemSlots(trace, steps, i, p.0);
      RunningHolds(execs[p.0], p.1);
    }
    InjectionBounds(execs, RunningNodes(execs), AllHolders(execs));
  }

  lemma RunningHolds(s: Exec, id: Id)
    requires Inv(s) && SlotsOk(s) && id in s.nodes && !s.loop.ctxDone && s.nodes[id].state.Running?
    ensures id in s.active && s.active[id] in s.tasks && s.tasks[s.active[id]].node == id && Holds(s, ByTask(s.active[id]))
  {
    assert ActiveOk(s, id);
  }
}
