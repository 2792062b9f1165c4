/** Waiting for children: what the counts and the mutex of an attempt mean, when a call moves on, and
    that whatever has ended has its attempt canceled. */
module ExecCalls {
  import opened Base
  import opened Graph
  import opened Exec
  import opened ExecInvariants
  import opened ExecSteps
  import opened ExecRuns
  import Reports = ExecReports

  // ---- The calls of an attempt ----------------------------------------------

  /** The calls counted as waiters of attempt `t`. */
  function CountedBy(calls: map<CallId, Call>, t: TaskId): set<CallId> {
    set k | k in calls && calls[k].phase.Counted? && calls[k].task == t
  }

  /** Some call is inside `resume` for attempt `t`. */
  ghost predicate MutexTaken(s: Exec, t: TaskId) {
    exists k :: k in s.calls && s.calls[k].task == t && s.calls[k].OwnsMutex()
  }

  /** The waiters of an attempt are the calls counted for it. */
  ghost predicate WaitersOk(s: Exec) {
    forall t :: t in s.tasks ==> s.tasks[t].waiters == |CountedBy(s.calls, t)|
  }

  /** The mutex of an attempt is held by nobody but a call inside `resume`. */
  ghost predicate MutexOk(s: Exec) {
    forall t :: t in s.tasks && s.tasks[t].resumer.Some? ==>
      var k := s.tasks[t].resumer.value;
      k in s.calls && s.calls[k].task == t && s.calls[k].OwnsMutex()
  }

  /** The goroutine has begun its attempt. */
  predicate Began(task: Task) {
    task.Attempting() || task.phase.Exited?
  }

  /** A call waits for a child of its parent, on behalf of the attempt it names. */
  ghost predicate ChildrenOk(s: Exec) {
    forall k :: k in s.calls ==> ChildOk(s, s.calls[k])
  }

  predicate ChildOk(s: Exec, c: Call) {
    && c.child in s.nodes && s.nodes[c.child].spec.parent == Some(c.parent)
    && c.task in s.tasks && s.tasks[c.task].node == c.parent && Began(s.tasks[c.task]) && s.tasks[c.task].number == c.attempt
  }

  /** An attempt whose node has ended has been told so. */
  ghost predicate EndedOk(s: Exec) {
    forall t :: t in s.tasks && s.tasks[t].Attempting() && s.tasks[t].node in s.nodes && s.nodes[s.tasks[t].node].Terminal() ==>
      s.tasks[t].canceled || s.loop.ctxDone
  }

  /** And so has one that is over, which lets go of the calls still blocked for it. */
  ghost predicate ExitedOk(s: Exec) {
    forall t :: t in s.tasks && s.tasks[t].phase.Exited? ==> s.tasks[t].canceled
  }

  ghost predicate CallsInv(s: Exec) {
    WaitersOk(s) && MutexOk(s) && ChildrenOk(s) && EndedOk(s) && ExitedOk(s)
  }

  // ---- Steps that are not of calls ------------------------------------------

  /** The goroutine keeps its waiters, its mutex, its node, its cancellation and its attempt. */
  predicate TaskKept(a: Task, b: Task) {
    && b.waiters == a.waiters && b.resumer == a.resumer && b.node == a.node && (a.canceled ==> b.canceled)
    && (Began(a) ==> Began(b) && b.number == a.number) && (b.phase.Exited? ==> a.phase.Exited? || b.canceled)
  }

  predicate FreshTask(a: Task) {
    a.waiters == 0 && a.resumer.None? && !a.Attempting() && !a.phase.Exited?
  }

  /** No call moves, and goroutines keep what belongs to calls. */
  ghost predicate CallsKept(s: Exec, s': Exec) {
    && s'.calls == s.calls
    && (forall t :: t in s.tasks ==> t in s'.tasks && TaskKept(s.tasks[t], s'.tasks[t]))
    && (forall t :: t in s'.tasks && t !in s.tasks ==> FreshTask(s'.tasks[t]))
  }

  lemma CommitKeepsTask(s: Exec, id: Id, next: Node, ok: bool, c: Closing, reason: string, t: TaskId)
    ensures CommitAndClose(s, id, next, ok, c, reason).calls == s.calls
    ensures CommitAndClose(s, id, next, ok, c, reason).tasks.Keys == s.tasks.Keys
    ensures t in s.tasks ==> TaskKept(s.tasks[t], CommitAndClose(s, id, next, ok, c, reason).tasks[t])
  {
  }

  /** Goroutine `t` in such a step. */
  predicate Kept(s: Exec, s': Exec, t: TaskId) {
    && s'.calls == s.calls && (t in s.tasks ==> t in s'.tasks && TaskKept(s.tasks[t], s'.tasks[t]))
    && (t in s'.tasks && t !in s.tasks ==> FreshTask(s'.tasks[t]))
  }

  lemma QuietKeepsCalls(s: Exec, step: Step, s': Exec, t: TaskId)
    requires if LoopStep(step) then LoopNext(s, step, s') else ClockStep(step) && ClockNext(s, step, s')
    ensures Kept(s, s', t)
  {
    hide Settled, RootLive;
  }

  lemma DispatchKeepsCalls(s: Exec, step: Step, s': Exec, t: TaskId)
    requires DispatchStep(step) && DispatchNext(s, step, s')
    ensures Kept(s, s', t)
  {
    hide LostEntries, AllDone, Lost;
  }

  lemma ImageKeepsCalls(s: Exec, u: TaskId, ok: bool, t: TaskId)
    requires u in s.tasks && s.tasks[u].node in s.nodes && !Began(s.tasks[u])
    ensures Kept(s, ImageOrAcquire(s, u, ok), t)
  {
  }

  lemma LookedUpKeepsCalls(s: Exec, step: Step, s': Exec, t: TaskId)
    requires step.LookedUp? && EarlyNext(s, step, s')
    ensures Kept(s, s', t)
  {
    hide ClosesBelow, CommitAndClose, HitNode, ImageOrAcquire;
    var u := step.t;
    if !Abandons(s, u) {
      if step.found.Hit? {
        CommitKeepsTask(Exit(s, u), s.tasks[u].node, HitNode(s.nodes[s.tasks[u].node], step.found), step.ok, step.c, "parent action completed", t);
      } else {
        ImageKeepsCalls(s, u, step.ok, t);
      }
    }
  }

  lemma EnsuredKeepsCalls(s: Exec, step: Step, s': Exec, t: TaskId)
    requires step.Ensured? && EarlyNext(s, step, s')
    ensures Kept(s, s', t)
  {
    hide ClosesBelow, CommitAndClose, ImageFailed;
    var u := step.t;
    if !Abandons(s, u) && step.imageFailure.Some? {
      CommitKeepsTask(Exit(s, u), s.tasks[u].node, ImageFailed(s.nodes[s.tasks[u].node], step.imageFailure.value), step.ok, step.c,
                      "parent action failed", t);
    }
  }

  lemma EarlyKeepsCalls(s: Exec, step: Step, s': Exec, t: TaskId)
    requires EarlyStep(step) && EarlyNext(s, step, s')
    ensures Kept(s, s', t)
  {
    if step.LookedUp? {
      hide EarlyNext, Kept;
      LookedUpKeepsCalls(s, step, s', t);
    } else if step.Ensured? {
      hide EarlyNext, Kept;
      EnsuredKeepsCalls(s, step, s', t);
    } else if step.BeginTask? {
      hide ImageOrAcquire;
      ImageKeepsCalls(s, step.t, step.ok, t);
    }
  }

  lemma FinishKeepsCalls(s: Exec, step: Step, s': Exec, t: TaskId)
    requires step.FinishTask? && LateNext(s, step, s')
    ensures Kept(s, s', t)
  {
    hide ClosesBelow, CommitAndClose, OutcomeOf, AttemptStands;
    CommitKeepsTask(Leave(s, step.t), s.tasks[step.t].node, OutcomeOf(s, step.t), step.ok, step.c, "parent action completed", t);
  }

  lemma LateKeepsCalls(s: Exec, step: Step, s': Exec, t: TaskId)
    requires LateStep(step) && LateNext(s, step, s')
    ensures Kept(s, s', t)
  {
    if step.FinishTask? {
      hide LateNext, Kept;
      FinishKeepsCalls(s, step, s', t);
    }
  }

  lemma CloseKeepsCalls(s: Exec, step: Step, s': Exec, t: TaskId)
    requires CloseStep(step) && CloseNext(s, step, s')
    ensures Kept(s, s', t)
  {
    hide CloseSet, ClosesBelow, CommitAndClose, CanceledIn;
    if step.CancelTree? {
      CommitKeepsTask(CancelAttempt(s, step.id), step.id, CanceledAction(s.nodes[step.id]), step.ok, step.c, "ancestor canceled", t);
    }
  }

  lemma AddKeepsCalls(s: Exec, step: Step, s': Exec, t: TaskId)
    requires AddStep(step) && AddNext(s, step, s')
    ensures Kept(s, s', t)
  {
  }

  lemma OthersKeepTask(s: Exec, step: Step, s': Exec, t: TaskId)
    requires Next(s, step, s') && !CallStep(step)
    ensures Kept(s, s', t)
  {
    hide Kept, LoopNext, ClockNext, DispatchNext, EarlyNext, LateNext, CallNext, CloseNext, AddNext;
    if LoopStep(step) || ClockStep(step) { QuietKeepsCalls(s, step, s', t); }
    else if DispatchStep(step) { DispatchKeepsCalls(s, step, s', t); }
    else if EarlyStep(step) { EarlyKeepsCalls(s, step, s', t); }
    else if LateStep(step) { LateKeepsCalls(s, step, s', t); }
    else if CloseStep(step) { CloseKeepsCalls(s, step, s', t); }
    else { AddKeepsCalls(s, step, s', t); }
  }

  lemma OthersKeepCalls(s: Exec, step: Step, s': Exec)
    requires Next(s, step, s') && !CallStep(step)
    ensures CallsKept(s, s')
  {
    hide Next;
    OthersKeepTask(s, step, s', 0);
    forall t | t in s.tasks ensures t in s'.tasks && TaskKept(s.tasks[t], s'.tasks[t]) { OthersKeepTask(s, step, s', t); }
    forall t | t in s'.tasks && t !in s.tasks ensures FreshTask(s'.tasks[t]) { OthersKeepTask(s, step, s', t); }
  }

  // ---- The steps of calls ---------------------------------------------------

  /** The call behind the step. */
  function CallOf(step: Step): CallId
    requires CallStep(step)
  {
    step.k
  }

  /** The attempt is over. */
  predicate Ended(s: Exec, t: TaskId)
    requires t in s.tasks
  {
    s.loop.ctxDone || s.tasks[t].canceled
  }

  /** The recorded attempt of a live parent, which has no slot and has not been told to stop. */
  predicate MayResume(s: Exec, c: Call) {
    && !s.loop.failed && !s.loop.ctxDone && c.parent in s.nodes && !s.nodes[c.parent].Terminal() && s.nodes[c.parent].attempt == c.attempt
    && c.parent in s.active && s.active[c.parent] == c.task && c.task in s.tasks && !s.tasks[c.task].canceled && !s.tasks[c.task].held
  }

  /** How a call moves, phase by phase. */
  predicate CallMoves(s: Exec, step: Step, s': Exec)
    requires CallStep(step)
  {
    var k := step.k;
    match step
    case WaitStart(_, parent, attempt, child, _) =>
      && k !in s.calls && parent in s.nodes && !s.nodes[parent].Terminal() && s.nodes[parent].attempt == attempt && parent in s.active
      && child in s.nodes && s.nodes[child].spec.parent == Some(parent)
      && (if k in s'.calls then s'.calls[k] == Call(parent, attempt, s.active[parent], child, if s.nodes[child].Terminal() then NeedMutex else Counted)
          else s'.loop.failed)
    case WaitEnd(_, callerCanceled) =>
      && Moves(s, s', k, Counted, NeedMutex) && s.calls[k].task in s.tasks
      && (callerCanceled || Ended(s, s.calls[k].task) || (s.calls[k].child in s.nodes && s.nodes[s.calls[k].child].Terminal()))
    case Lock(_) => Moves(s, s', k, NeedMutex, Draining)
    case Drain(_) => Moves(s, s', k, Draining, Rechecking)
    case CheckAgain(_) =>
      if k in s.calls && MayResume(s, s.calls[k]) then Moves(s, s', k, Rechecking, Reacquiring) else Returns(s, s', k, Rechecking)
    case Reacquire(_) => Moves(s, s', k, Reacquiring, GotSlot)
    case ReacquireAborted(_) => Returns(s, s', k, Reacquiring) && s.calls[k].task in s.tasks && Ended(s, s.calls[k].task)
    case Restore(_, _) => Returns(s, s', k, GotSlot)
  }

  predicate Moves(s: Exec, s': Exec, k: CallId, from_: CallPhase, to: CallPhase) {
    k in s.calls && s.calls[k].phase == from_ && k in s'.calls && s'.calls[k] == s.calls[k].(phase := to)
  }

  predicate Returns(s: Exec, s': Exec, k: CallId, from_: CallPhase) {
    k in s.calls && s.calls[k].phase == from_ && k !in s'.calls
  }

  /** What a step of call `k` for attempt `t` does to goroutines and calls. */
  ghost predicate OnlyCall(s: Exec, s': Exec, k: CallId, t: TaskId) {
    && (forall j :: j != k ==> (j in s.calls <==> j in s'.calls) && (j in s.calls ==> s'.calls[j] == s.calls[j]))
    && s'.tasks.Keys == s.tasks.Keys && (forall u :: u in s.tasks && u != t ==> s'.tasks[u] == s.tasks[u])
    && t in s.tasks && s'.tasks[t].node == s.tasks[t].node && s'.tasks[t].number == s.tasks[t].number
    && s'.tasks[t].phase == s.tasks[t].phase && s'.tasks[t].canceled == s.tasks[t].canceled
  }

  /** The attempt behind the step. */
  function AttemptOf(s: Exec, step: Step): TaskId
    requires CallStep(step)
  {
    if step.WaitStart? then (if step.parent in s.active then s.active[step.parent] else 0)
    else if step.k in s.calls then s.calls[step.k].task else 0
  }

  lemma WaitStarts(s: Exec, step: Step, s': Exec)
    requires CallStep(step) && CallNext(s, step, s') && step.WaitStart?
    ensures CallMoves(s, step, s') && OnlyCall(s, s', step.k, AttemptOf(s, step))
    ensures var t := AttemptOf(s, step);
            && s'.tasks[t].resumer == s.tasks[t].resumer
            && s'.tasks[t].waiters == s.tasks[t].waiters + (if step.k in s'.calls && s'.calls[step.k].phase.Counted? then 1 else 0)
  {
  }

  lemma WaitEnds(s: Exec, step: Step, s': Exec)
    requires CallStep(step) && CallNext(s, step, s') && step.WaitEnd?
    ensures CallMoves(s, step, s') && OnlyCall(s, s', step.k, AttemptOf(s, step))
    ensures var t := AttemptOf(s, step); s'.tasks[t].resumer == s.tasks[t].resumer && s'.tasks[t].waiters == s.tasks[t].waiters - 1
  {
  }

  /** Inside `resume`: the mutex is the call's from one end to the other. */
  lemma Resumes(s: Exec, step: Step, s': Exec)
    requires CallStep(step) && CallNext(s, step, s') && !step.WaitStart? && !step.WaitEnd?
    ensures CallMoves(s, step, s') && OnlyCall(s, s', step.k, AttemptOf(s, step))
    ensures var t := AttemptOf(s, step);
            && s'.tasks[t].waiters == s.tasks[t].waiters
            && s'.tasks[t].resumer == (if step.Lock? then Some(step.k) else if step.k in s'.calls then s.tasks[t].resumer else None)
            && (step.Lock? ==> s.tasks[t].resumer.None?)
  {
    if step.Restore? {
      hide CallNext, CallMoves, OnlyCall;
      Restores(s, step, s');
    } else if step.CheckAgain? {
      hide CallNext, CallMoves, OnlyCall;
      Rechecks(s, step, s');
    }
  }

  lemma Restores(s: Exec, step: Step, s': Exec)
    requires CallStep(step) && CallNext(s, step, s') && step.Restore?
    ensures CallMoves(s, step, s') && OnlyCall(s, s', step.k, AttemptOf(s, step))
    ensures var t := AttemptOf(s, step); s'.tasks[t].waiters == s.tasks[t].waiters && s'.tasks[t].resumer == None
  {
    hide CanReclaim;
  }

  lemma Rechecks(s: Exec, step: Step, s': Exec)
    requires CallStep(step) && CallNext(s, step, s') && step.CheckAgain?
    ensures CallMoves(s, step, s') && OnlyCall(s, s', step.k, AttemptOf(s, step))
    ensures var t := AttemptOf(s, step);
            && s'.tasks[t].waiters == s.tasks[t].waiters
            && s'.tasks[t].resumer == (if step.k in s'.calls then s.tasks[t].resumer else None)
  {
  }

  /** How each step of a call moves it, and that it moves no other. */
  lemma CallStepsAre(s: Exec, step: Step, s': Exec)
    requires Next(s, step, s') && CallStep(step)
    ensures CallMoves(s, step, s') && OnlyCall(s, s', step.k, AttemptOf(s, step))
  {
    hide Next, CallNext, CallMoves, OnlyCall;
    CallIs(s, step, s');
    if step.WaitStart? { WaitStarts(s, step, s'); }
    else if step.WaitEnd? { WaitEnds(s, step, s'); }
    else { Resumes(s, step, s'); }
  }

  // ---- What calls keep ------------------------------------------------------

  /** The counted calls of an attempt when one call changes. */
  lemma CountsMove(a: map<CallId, Call>, b: map<CallId, Call>, k: CallId, t: TaskId)
    requires forall j :: j != k ==> (j in a <==> j in b) && (j in a ==> b[j] == a[j])
    ensures |CountedBy(b, t)| - (if k in CountedBy(b, t) then 1 else 0) == |CountedBy(a, t)| - (if k in CountedBy(a, t) then 1 else 0)
  {
    assert CountedBy(b, t) - {k} == CountedBy(a, t) - {k};
    hide CountedBy;
    SizeWithout(CountedBy(a, t), k);
    SizeWithout(CountedBy(b, t), k);
  }

  lemma SizeWithout(s: set<CallId>, k: CallId)
    ensures |s - {k}| == |s| - (if k in s then 1 else 0)
  {
    if k in s { assert s == (s - {k}) + {k}; } else { assert s == s - {k}; }
  }

  lemma CallKeepsWaiters(s: Exec, step: Step, s': Exec)
    requires CallStep(step) && CallNext(s, step, s') && WaitersOk(s)
    ensures WaitersOk(s')
  {
    hide CallNext, CountedBy;
    if step.WaitStart? { WaitStarts(s, step, s'); }
    else if step.WaitEnd? { WaitEnds(s, step, s'); }
    else { Resumes(s, step, s'); }
    hide MayResume;
    forall t | t in s'.tasks ensures s'.tasks[t].waiters == |CountedBy(s'.calls, t)| {
      CountsMove(s.calls, s'.calls, step.k, t);
      CountedIs(s.calls, step.k, t);
      CountedIs(s'.calls, step.k, t);
    }
  }

  lemma CountedIs(calls: map<CallId, Call>, k: CallId, t: TaskId)
    ensures k in CountedBy(calls, t) <==> k in calls && calls[k].phase.Counted? && calls[k].task == t
  {
  }

  /** What holds of the mutex of every other attempt. */
  lemma OtherMutexes(s: Exec, s': Exec, k: CallId, t: TaskId, u: TaskId)
    requires MutexOk(s) && OnlyCall(s, s', k, t) && u in s'.tasks && u != t && s'.tasks[u].resumer.Some?
    requires k in s.calls ==> s.calls[k].task == t
    ensures var j := s'.tasks[u].resumer.value; j in s'.calls && s'.calls[j].task == u && s'.calls[j].OwnsMutex()
  {
  }

  lemma CallKeepsMutex(s: Exec, step: Step, s': Exec)
    requires CallStep(step) && CallNext(s, step, s') && MutexOk(s) && Goroutines(s)
    ensures MutexOk(s')
  {
    var k, t := step.k, AttemptOf(s, step);
    if k in s.calls { assert CallOk(s, k); }
    hide CallNext, Goroutines, MayResume;
    if step.WaitStart? { WaitStarts(s, step, s'); }
    else if step.WaitEnd? { WaitEnds(s, step, s'); }
    else { Resumes(s, step, s'); }
    forall u | u in s'.tasks && s'.tasks[u].resumer.Some?
      ensures var j := s'.tasks[u].resumer.value; j in s'.calls && s'.calls[j].task == u && s'.calls[j].OwnsMutex()
    {
      if u != t { OtherMutexes(s, s', k, t, u); }
    }
  }

  lemma ChildStays(s: Exec, step: Step, s': Exec, c: Call)
    requires Inv(s) && Next(s, step, s') && CallStep(step) && ChildOk(s, c)
    ensures ChildOk(s', c)
  {
    hide Next, Inv, CallMoves;
    CallStepsAre(s, step, s');
    Reports.StepChanges(s, step, s', c.child);
    hide Reports.GoesOn, Reports.OwnEnd, Reports.ClosedAlong;
  }

  lemma NewChild(s: Exec, step: Step, s': Exec)
    requires Inv(s) && Next(s, step, s') && step.WaitStart? && step.k in s'.calls
    ensures ChildOk(s', s'.calls[step.k])
  {
    CallStepsAre(s, step, s');
    ParentAttempts(s, step.parent);
    hide Next, Inv;
    ChildStays(s, step, s', Call(step.parent, step.attempt, s.active[step.parent], step.child, Counted));
  }

  lemma ParentAttempts(s: Exec, parent: Id)
    requires Inv(s)
    ensures parent in s.nodes && parent in s.active && !s.nodes[parent].Terminal() ==>
              var t := s.active[parent];
              t in s.tasks && s.tasks[t].node == parent && Began(s.tasks[t]) && s.tasks[t].number == s.nodes[parent].attempt
  {
    if parent in s.active {
      assert ActiveOk(s, parent) && TaskOk(s, s.active[parent]);
    }
    hide NodesOk;
  }

  lemma CallKeepsChildren(s: Exec, step: Step, s': Exec)
    requires Inv(s) && Next(s, step, s') && CallStep(step) && ChildrenOk(s)
    ensures ChildrenOk(s')
  {
    hide Next, Inv, MayResume, ChildOk, Moves, Returns;
    CallStepsAre(s, step, s');
    if step.k in s'.calls && !step.WaitStart? { PhaseOnly(s, step, s'); }
    hide CallMoves;
    forall k | k in s'.calls ensures ChildOk(s', s'.calls[k]) {
      if step.WaitStart? && k == step.k {
        NewChild(s, step, s');
      } else {
        assert ChildOk(s, s.calls[k]);
        SameChild(s, s.calls[k], s'.calls[k]);
        ChildStays(s, step, s', s'.calls[k]);
      }
    }
  }

  lemma PhaseOnly(s: Exec, step: Step, s': Exec)
    requires CallStep(step) && CallMoves(s, step, s') && step.k in s'.calls && !step.WaitStart?
    ensures step.k in s.calls && s'.calls[step.k] == s.calls[step.k].(phase := s'.calls[step.k].phase)
  {
    hide MayResume;
  }

  /** Whatever phase a call is in. */
  lemma SameChild(s: Exec, a: Call, b: Call)
    requires ChildOk(s, a) && b == a.(phase := b.phase)
    ensures ChildOk(s, b)
  {
  }

  lemma OthersKeepInv(s: Exec, step: Step, s': Exec)
    requires Inv(s) && Next(s, step, s') && !CallStep(step) && WaitersOk(s) && MutexOk(s)
    ensures WaitersOk(s') && MutexOk(s')
  {
    OthersKeepCalls(s, step, s');
    hide Next;
    forall t | t in s'.tasks && t !in s.tasks ensures CountedBy(s.calls, t) == {} {
      forall k | k in s.calls ensures s.calls[k].task in s.tasks { assert CallOk(s, k); }
    }
    hide Inv, CountedBy;
  }

  lemma OthersKeepChildren(s: Exec, step: Step, s': Exec)
    requires Inv(s) && Next(s, step, s') && !CallStep(step) && ChildrenOk(s)
    ensures ChildrenOk(s')
  {
    hide Next, Inv, ChildOk;
    OthersKeepCalls(s, step, s');
    forall k | k in s'.calls ensures ChildOk(s', s'.calls[k]) {
      assert ChildOk(s, s.calls[k]);
      ChildKept(s, step, s', s.calls[k]);
    }
  }

  lemma ChildKept(s: Exec, step: Step, s': Exec, c: Call)
    requires Inv(s) && Next(s, step, s') && CallsKept(s, s') && ChildOk(s, c)
    ensures ChildOk(s', c)
  {
    hide Next, Inv;
    Reports.StepChanges(s, step, s', c.child);
    hide Reports.GoesOn, Reports.OwnEnd, Reports.ClosedAlong;
  }

  // ---- Attempts of ended nodes ----------------------------------------------

  /** While goroutine `t` has the attempt of a node, the node ends only with a cancellation that reaches
      the attempt. */
  lemma EndReaches(s: Exec, step: Step, s': Exec, t: TaskId)
    requires Inv(s) && Next(s, step, s') && !CallStep(step) && t in s.tasks && s.tasks[t].Attempting() && t in s'.tasks && s'.tasks[t].Attempting()
    requires var id := s.tasks[t].node; id in s.nodes && !s.nodes[id].Terminal() && id in s'.nodes && s'.nodes[id].Terminal()
    ensures s'.tasks[t].canceled
  {
    var id := s.tasks[t].node;
    assert TaskOk(s, t);
    hide Inv, Next;
    Reports.StepChanges(s, step, s', id);
    var n, n' := s.nodes[id], s'.nodes[id];
    hide Reports.GoesOn;
    assert !Reports.GoesOn(s, step, id, n, n') by { GoesOnLives(s, step, id, n, n'); }
    if Reports.ClosedAlong(step, id, n, n') {
      ClosedIsCanceled(s, step, s', t, id);
    } else if step.CancelTree? {
      CanceledTree(s, step, s', t);
    } else {
      OwnEndIsOwn(s, step, s', t);
    }
  }

  lemma GoesOnLives(s: Exec, step: Step, id: Id, n: Node, n': Node)
    requires n'.Terminal()
    ensures !Reports.GoesOn(s, step, id, n, n')
  {
  }

  /** The attempt of node `id`. */
  predicate HasAttempt(s: Exec, id: Id, t: TaskId) {
    id in s.active && s.active[id] == t && t in s.tasks && s.tasks[t].node == id
  }

  lemma CloseCancels(s: Exec, x: Id, next: Node, ok: bool, c: Closing, reason: string, t: TaskId, id: Id)
    requires HasAttempt(s, id, t) && id in c.done
    ensures var s' := CommitAndClose(s, x, next, ok, c, reason); t in s'.tasks && (s'.tasks[t].canceled || s'.nodes == s.nodes)
    ensures var s' := Close(s, c, reason); t in s'.tasks && s'.tasks[t].canceled
  {
  }

  lemma ClosedIsCanceled(s: Exec, step: Step, s': Exec, t: TaskId, id: Id)
    requires Inv(s) && Next(s, step, s') && HasAttempt(s, id, t) && t in s'.tasks && s'.tasks[t].Attempting() && s.tasks[t].Attempting()
    requires Reports.Reason(step).Some? && id in Reports.Reason(step).value.0
    requires id in s.nodes && id in s'.nodes && !s.nodes[id].Terminal() && s'.nodes[id].Terminal()
    ensures s'.tasks[t].canceled
  {
    hide Inv, LoopNext, ClockNext, DispatchNext, EarlyNext, LateNext, CallNext, CloseNext, AddNext;
    if EarlyStep(step) { EarlyCancels(s, step, s', t, id); }
    else if LateStep(step) { FinishCancels(s, step, s', t, id); }
    else if CloseStep(step) { CloseStepCancels(s, step, s', t, id); }
  }

  lemma EarlyCancels(s: Exec, step: Step, s': Exec, t: TaskId, id: Id)
    requires (step.LookedUp? || step.Ensured?) && EarlyNext(s, step, s') && HasAttempt(s, id, t) && s.tasks[t].Attempting()
    requires id in step.c.done && id in s.nodes && id in s'.nodes && !s.nodes[id].Terminal() && s'.nodes[id].Terminal() && t in s'.tasks
    ensures s'.tasks[t].canceled
  {
    hide ClosesBelow, CommitAndClose, HitNode, ImageFailed;
    var u := step.t;
    assert if step.LookedUp? then step.found.Hit? else step.imageFailure.Some?;
    if step.LookedUp? {
      CloseCancels(Exit(s, u), s.tasks[u].node, HitNode(s.nodes[s.tasks[u].node], step.found), step.ok, step.c, "parent action completed", t, id);
    } else {
      CloseCancels(Exit(s, u), s.tasks[u].node, ImageFailed(s.nodes[s.tasks[u].node], step.imageFailure.value), step.ok, step.c, "parent action failed", t, id);
    }
  }

  lemma FinishCancels(s: Exec, step: Step, s': Exec, t: TaskId, id: Id)
    requires Inv(s) && step.FinishTask? && LateNext(s, step, s') && HasAttempt(s, id, t) && id in step.c.done
    requires id in s.nodes && id in s'.nodes && s'.nodes[id] != s.nodes[id] && t in s'.tasks && s'.tasks[t].Attempting()
    ensures s'.tasks[t].canceled
  {
    hide Inv, ClosesBelow, CommitAndClose, OutcomeOf, AttemptStands;
    var u := step.t;
    OwnAttempt(s, u);
    if u == t {
      CommitKeepsPhase(Leave(s, t), s.tasks[t].node, OutcomeOf(s, t), step.ok, step.c, "parent action completed", t);
    } else {
      assert HasAttempt(Leave(s, u), id, t);
      CloseCancels(Leave(s, u), s.tasks[u].node, OutcomeOf(s, u), step.ok, step.c, "parent action completed", t, id);
    }
  }

  lemma OwnAttempt(s: Exec, u: TaskId)
    requires Inv(s) && At(s, u, Returned)
    ensures HasAttempt(s, s.tasks[u].node, u)
  {
    assert TaskOk(s, u);
  }

  lemma CommitKeepsPhase(s: Exec, id: Id, next: Node, ok: bool, c: Closing, reason: string, t: TaskId)
    requires t in s.tasks
    ensures t in CommitAndClose(s, id, next, ok, c, reason).tasks && CommitAndClose(s, id, next, ok, c, reason).tasks[t].phase == s.tasks[t].phase
  {
  }

  lemma CloseStepCancels(s: Exec, step: Step, s': Exec, t: TaskId, id: Id)
    requires CloseStep(step) && CloseNext(s, step, s') && HasAttempt(s, id, t) && id in step.c.done
    requires id in s.nodes && id in s'.nodes && s'.nodes[id] != s.nodes[id] && t in s'.tasks
    ensures s'.tasks[t].canceled
  {
    hide CloseSet, ClosesBelow, CommitAndClose, Close;
    if step.CancelTree? {
      if s.nodes[step.id].Terminal() {
        CloseCancels(s, id, s.nodes[id], false, step.c, "ancestor canceled", t, id);
      } else {
        CloseCancels(CancelAttempt(s, step.id), step.id, CanceledAction(s.nodes[step.id]), step.ok, step.c, "ancestor canceled", t, id);
      }
    } else {
      CloseCancels(s, id, s.nodes[id], false, step.c, if step.CancelAll? then "run canceled" else "root action completed", t, id);
    }
  }

  lemma CanceledTree(s: Exec, step: Step, s': Exec, t: TaskId)
    requires Next(s, step, s') && step.CancelTree? && t in s.tasks && t in s'.tasks
    requires step.id in s.nodes && !s.nodes[step.id].Terminal() && HasAttempt(s, step.id, t)
    ensures s'.tasks[t].canceled
  {
    hide LoopNext, ClockNext, DispatchNext, EarlyNext, LateNext, CallNext, AddNext, ClosesBelow, CommitAndClose;
    if !s.nodes[step.id].Terminal() {
      CommitKeepsTask(CancelAttempt(s, step.id), step.id, CanceledAction(s.nodes[step.id]), step.ok, step.c, "ancestor canceled", t);
    }
  }

  lemma OwnEndIsOwn(s: Exec, step: Step, s': Exec, t: TaskId)
    requires Inv(s) && t in s.tasks && TaskOk(s, t) && s.tasks[t].Attempting() && t in s'.tasks && s'.tasks[t].Attempting() && Next(s, step, s')
    requires var id := s.tasks[t].node; !s.nodes[id].Terminal() && id in s'.nodes && Reports.OwnEnd(s, step, id, s.nodes[id], s'.nodes[id])
    ensures step.CancelTree?
  {
    hide Reports.HitEnds, Reports.AttemptEnds, Reports.Stopped, LoopNext, ClockNext, DispatchNext, EarlyNext, CallNext, CloseNext, AddNext, NodesOk;
    if step.FinishTask? {
      assert TaskOk(s, step.t);
      FinishExits(s, step, s');
    }
  }

  lemma FinishExits(s: Exec, step: Step, s': Exec)
    requires step.FinishTask? && LateNext(s, step, s')
    ensures step.t in s'.tasks && s'.tasks[step.t].phase.Exited?
  {
    hide ClosesBelow, CommitAndClose, OutcomeOf, AttemptStands;
    CommitKeepsPhase(Leave(s, step.t), s.tasks[step.t].node, OutcomeOf(s, step.t), step.ok, step.c, "parent action completed", step.t);
  }

  /** A goroutine that gets its attempt has its node running. */
  lemma BeginsRunning(s: Exec, step: Step, s': Exec, t: TaskId)
    requires Next(s, step, s') && !CallStep(step) && t in s.tasks && !s.tasks[t].Attempting() && t in s'.tasks && s'.tasks[t].Attempting()
    ensures s'.tasks[t].node in s'.nodes && !s'.nodes[s'.tasks[t].node].Terminal()
  {
    hide Next;
    if Reports.OwnStep(step, t) {
      OwnBegin(s, step, s', t);
    } else {
      Reports.StepKeepsTask(s, step, s', t);
    }
  }

  lemma OwnBegin(s: Exec, step: Step, s': Exec, t: TaskId)
    requires Next(s, step, s') && Reports.OwnStep(step, t) && t in s.tasks && !s.tasks[t].Attempting() && t in s'.tasks && s'.tasks[t].Attempting()
    ensures s'.tasks[t].node in s'.nodes && !s'.nodes[s'.tasks[t].node].Terminal()
  {
    hide LoopNext, ClockNext, DispatchNext, CallNext, CloseNext, AddNext, ClosesBelow, HitNode, ImageFailed;
    if EarlyStep(step) {
      hide LateNext;
      EarlyBeginsNothing(s, step, s', t);
    } else {
      hide EarlyNext, OutcomeOf;
    }
  }

  lemma EarlyBeginsNothing(s: Exec, step: Step, s': Exec, t: TaskId)
    requires EarlyStep(step) && EarlyNext(s, step, s') && step.t == t && t in s.tasks && t in s'.tasks
    ensures !s'.tasks[t].Attempting()
  {
    hide ClosesBelow, HitNode, ImageFailed, CommitAndClose;
    if step.LookedUp? {
      CommitKeepsPhase(Exit(s, t), s.tasks[t].node, if step.found.Hit? then HitNode(s.nodes[s.tasks[t].node], step.found) else s.nodes[s.tasks[t].node],
                       step.ok, step.c, "parent action completed", t);
    }
    if step.Ensured? {
      CommitKeepsPhase(Exit(s, t), s.tasks[t].node,
                       if step.imageFailure.Some? then ImageFailed(s.nodes[s.tasks[t].node], step.imageFailure.value) else s.nodes[s.tasks[t].node],
                       step.ok, step.c, "parent action failed", t);
    }
  }

  lemma OthersKeepEnded(s: Exec, step: Step, s': Exec)
    requires Inv(s) && Next(s, step, s') && !CallStep(step) && EndedOk(s)
    ensures EndedOk(s')
  {
    hide Next, Inv;
    OthersKeepCalls(s, step, s');
    forall t | t in s'.tasks && s'.tasks[t].Attempting() && s'.tasks[t].node in s'.nodes && s'.nodes[s'.tasks[t].node].Terminal()
      ensures s'.tasks[t].canceled || s'.loop.ctxDone
    {
      if s.loop.ctxDone {
        Reports.ContextStaysEnded(s, step, s');
      } else if t in s.tasks && s.tasks[t].Attempting() {
        OwnGoroutine(s, t);
        if !s.nodes[s.tasks[t].node].Terminal() { EndReaches(s, step, s', t); }
      } else {
        assert t in s.tasks;
        BeginsRunning(s, step, s', t);
      }
    }
  }

  lemma CallsKeepEnded(s: Exec, step: Step, s': Exec)
    requires Inv(s) && Next(s, step, s') && CallStep(step) && EndedOk(s)
    ensures EndedOk(s')
  {
    hide Next, Inv, CallMoves;
    CallStepsAre(s, step, s');
    if s.loop.ctxDone { Reports.ContextStaysEnded(s, step, s'); }
    forall t | t in s'.tasks && s'.tasks[t].Attempting() && s'.tasks[t].node in s'.nodes && s'.nodes[s'.tasks[t].node].Terminal()
      ensures s'.tasks[t].canceled || s'.loop.ctxDone
    {
      OwnGoroutine(s, t);
      CallEndsNothing(s, step, s', s.tasks[t].node);
    }
  }

  lemma CallEndsNothing(s: Exec, step: Step, s': Exec, id: Id)
    requires Inv(s) && Next(s, step, s') && CallStep(step) && id in s.nodes
    ensures id in s'.nodes && (s'.nodes[id].Terminal() ==> s.nodes[id].Terminal())
  {
    hide Next, Inv;
    Reports.StepChanges(s, step, s', id);
  }

  lemma KeepsExited(s: Exec, step: Step, s': Exec)
    requires Next(s, step, s') && ExitedOk(s)
    ensures ExitedOk(s')
  {
    hide Next, CallMoves;
    if CallStep(step) { CallStepsAre(s, step, s'); } else { OthersKeepCalls(s, step, s'); }
  }

  lemma StepKeepsCalls(s: Exec, step: Step, s': Exec)
    requires Inv(s) && Next(s, step, s') && CallsInv(s)
    ensures CallsInv(s')
  {
    hide Next, WaitersOk, MutexOk, ChildrenOk, EndedOk;
    KeepsExited(s, step, s');
    hide ExitedOk;
    if CallStep(step) {
      CallIs(s, step, s');
      CallKeepsWaiters(s, step, s');
      CallKeepsMutex(s, step, s');
      CallKeepsChildren(s, step, s');
      CallsKeepEnded(s, step, s');
    } else {
      OthersKeepInv(s, step, s');
      OthersKeepChildren(s, step, s');
      OthersKeepEnded(s, step, s');
    }
  }

  // ---- Over whole runs ------------------------------------------------------

  lemma StartsWithoutCalls(nodes: Nodes, root: Id, now: Time, timers: set<Timer>)
    ensures CallsInv(Start(nodes, root, now, timers))
  {
  }

  lemma {:induction false} RunCalls(trace: seq<Exec>, steps: seq<Step>, i: nat)
    requires GoodRun(trace, steps) && i < |trace|
    ensures CallsInv(trace[i])
  {
    hide Next, Inv, CallsInv;
    if i == 0 {
      StartsWithoutCalls(trace[0].nodes, trace[0].book.root, trace[0].loop.now, trace[0].loop.timers);
    } else {
      hide GoodRun;
      FirstState(trace, steps);
      RunCalls(trace, steps, i - 1);
      RunInv(trace, steps, i - 1);
      NthStep(trace, steps, i - 1);
      StepKeepsCalls(trace[i - 1], steps[i - 1], trace[i]);
    }
  }

  /** The waiters of an attempt are exactly the calls that are blocked for it, and its mutex is held
      exactly by the one call, if any, that is inside `resume`. */
  lemma AttemptsKnowTheirCalls(trace: seq<Exec>, steps: seq<Step>, i: nat, t: TaskId)
    requires GoodRun(trace, steps) && i < |trace| && t in trace[i].tasks
    ensures var s := trace[i];
            && s.tasks[t].waiters == |set k | k in s.calls && s.calls[k].phase.Counted? && s.calls[k].task == t|
            && forall k :: s.tasks[t].resumer == Some(k) <==> k in s.calls && s.calls[k].task == t && s.calls[k].OwnsMutex()
  {
    hide Next, GoodRun, NodesOk, ChildrenOk, EndedOk, ExitedOk;
    RunCalls(trace, steps, i);
    RunInv(trace, steps, i);
    var s := trace[i];
    assert (set k | k in s.calls && s.calls[k].phase.Counted? && s.calls[k].task == t) == CountedBy(s.calls, t);
    forall k | k in s.calls && s.calls[k].task == t && s.calls[k].OwnsMutex() ensures s.tasks[t].resumer == Some(k) { assert CallOk(s, k); }
  }

  /** A call waits for a child of its own parent, for the attempt it was made in. */
  lemma CallsWaitForChildren(trace: seq<Exec>, steps: seq<Step>, i: nat, k: CallId)
    requires GoodRun(trace, steps) && i < |trace| && k in trace[i].calls
    ensures var s := trace[i];
            var c := s.calls[k];
            && c.child in s.nodes && s.nodes[c.child].spec.parent == Some(c.parent)
            && c.task in s.tasks && s.tasks[c.task].node == c.parent && s.tasks[c.task].number == c.attempt
  {
    hide Next, GoodRun;
    RunCalls(trace, steps, i);
  }

  /** An attempt that goes on after its node has ended has been canceled, or the whole run has; one that
      is over always has, so that no call stays blocked for it. */
  lemma EndedAttemptsAreCanceled(trace: seq<Exec>, steps: seq<Step>, i: nat, t: TaskId)
    requires GoodRun(trace, steps) && i < |trace| && t in trace[i].tasks
    ensures trace[i].tasks[t].node in trace[i].nodes
    ensures trace[i].tasks[t].Attempting() && trace[i].nodes[trace[i].tasks[t].node].Terminal() ==>
              trace[i].tasks[t].canceled || trace[i].loop.ctxDone
    ensures trace[i].tasks[t].phase.Exited? ==> trace[i].tasks[t].canceled
  {
    hide Next, GoodRun;
    RunCalls(trace, steps, i);
    RunInv(trace, steps, i);
    hide Inv;
    OwnGoroutine(trace[i], t);
  }

  // ---- When a call can move on ----------------------------------------------

  /** A blocked call goes on, without its caller giving up, exactly once its child has ended or its
      attempt is over. */
  lemma WaitEndsExactly(trace: seq<Exec>, steps: seq<Step>, i: nat, k: CallId)
    requires GoodRun(trace, steps) && i < |trace| && k in trace[i].calls && trace[i].calls[k].phase.Counted?
    ensures var s := trace[i];
            var c := s.calls[k];
            && c.child in s.nodes && c.task in s.tasks
            && ((exists s' :: Next(s, WaitEnd(k, false), s')) <==> s.nodes[c.child].Terminal() || s.tasks[c.task].canceled || s.loop.ctxDone)
  {
    CallsWaitForChildren(trace, steps, i, k);
    hide GoodRun;
    var s := trace[i];
    if CanUnblock(s, k, false) { assert Next(s, WaitEnd(k, false), Unblock(s, k)); }
  }

  /** The mutex of an attempt is to be had exactly while no call of it is inside `resume`. */
  lemma LocksExactly(trace: seq<Exec>, steps: seq<Step>, i: nat, k: CallId)
    requires GoodRun(trace, steps) && i < |trace| && k in trace[i].calls && trace[i].calls[k].phase.NeedMutex?
    ensures (exists s' :: Next(trace[i], Lock(k), s')) <==> !MutexTaken(trace[i], trace[i].calls[k].task)
  {
    CallsWaitForChildren(trace, steps, i, k);
    var s := trace[i];
    var t := s.calls[k].task;
    AttemptsKnowTheirCalls(trace, steps, i, t);
    hide GoodRun;
    if s.tasks[t].resumer.None? { assert Next(s, Lock(k), TakeMutex(s, k)); }
  }

  /** A call that has the mutex asks for a slot exactly once no other call of the attempt is blocked any
      more, or the attempt is over. */
  lemma DrainsExactly(trace: seq<Exec>, steps: seq<Step>, i: nat, k: CallId)
    requires GoodRun(trace, steps) && i < |trace| && k in trace[i].calls && trace[i].calls[k].phase.Draining?
    ensures var s := trace[i];
            var t := s.calls[k].task;
            && t in s.tasks
            && ((exists s' :: Next(s, Drain(k), s')) <==>
                  (forall j :: j in s.calls && s.calls[j].task == t ==> !s.calls[j].phase.Counted?) || s.tasks[t].canceled || s.loop.ctxDone)
  {
    hide MutexOk, ChildrenOk, EndedOk, ExitedOk, GoodRun, LateNext, EarlyNext, CloseNext, DispatchNext, LoopNext, ClockNext, AddNext;
    CallsWaitForChildren(trace, steps, i, k);
    RunCalls(trace, steps, i);
    var s := trace[i];
    var t := s.calls[k].task;
    if s.tasks[t].waiters == 0 || Over(s, t) { assert Next(s, Drain(k), SetPhase(s, k, Rechecking)); }
    if j :| j in s.calls && s.calls[j].task == t && s.calls[j].phase.Counted? {
      assert j in CountedBy(s.calls, t);
    } else {
      assert CountedBy(s.calls, t) == {};
    }
  }

  lemma FinishGuard(s: Exec, t: TaskId)
    requires At(s, t, Returned)
    ensures s.tasks[t].resumer.None? ==> LateNext(s, FinishTask(t, false, Closing({}, None)), Finish(s, t, false, Closing({}, None)))
    ensures forall ok, c, s' :: LateNext(s, FinishTask(t, ok, c), s') ==> s.tasks[t].resumer.None?
  {
    hide CloseSet, OutcomeOf, AttemptStands, Finish;
  }

  /** A returned attempt can be closed exactly while no call of it is inside `resume`. */
  lemma FinishesExactly(trace: seq<Exec>, steps: seq<Step>, i: nat, t: TaskId)
    requires GoodRun(trace, steps) && i < |trace| && t in trace[i].tasks && trace[i].tasks[t].phase.Returned?
    ensures (exists ok, c, s' :: Next(trace[i], FinishTask(t, ok, c), s')) <==> !MutexTaken(trace[i], t)
  {
    hide GoodRun, Inv, LateNext, CallsInv;
    AttemptsKnowTheirCalls(trace, steps, i, t);
    RunInv(trace, steps, i);
    var s := trace[i];
    OwnGoroutine(s, t);
    FinishGuard(s, t);
    hide CountedBy;
    if s.tasks[t].resumer.None? {
      assert Next(s, FinishTask(t, false, Closing({}, None)), Finish(s, t, false, Closing({}, None)));
    }
    if ok, c, s' :| Next(s, FinishTask(t, ok, c), s') { assert LateNext(s, FinishTask(t, ok, c), s'); }
  }
}
