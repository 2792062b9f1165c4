/** The life cycle of a node: which step takes it from which state to which, and what whatever
    ended it left behind. */
module ExecReports {
  import opened Base
  import opened Graph
  import opened Exec
  import opened ExecInvariants
  import opened ExecSteps
  import opened ExecRuns
  import opened ExecBounds

  // ---- The life cycle -------------------------------------------------------

  /** The node of the goroutine behind the step, in a run that goes on. */
  predicate Of(s: Exec, t: TaskId, id: Id) {
    t in s.tasks && s.tasks[t].node == id && !s.loop.ctxDone
  }

  /** The attempt of a waiting parent goes on: it is the recorded one, and neither it nor its node nor
      the run has ended. */
  predicate Resumes(s: Exec, parent: Id, t: TaskId) {
    && parent in s.active && s.active[parent] == t && t in s.tasks && !s.tasks[t].canceled
    && parent in s.nodes && !s.nodes[parent].Terminal() && !s.loop.ctxDone
  }

  /** Number, failures, retry time and report are as before. */
  predicate SameRecord(n: Node, n': Node) {
    n'.attempt == n.attempt && n'.failures == n.failures && n'.nextAttemptAt == n.nextAttemptAt && n'.report == n.report
  }

  /** The node goes on: made ready, waiting for its image and ready again, started, waiting for
      children and running again. */
  predicate GoesOn(s: Exec, step: Step, id: Id, n: Node, n': Node) {
    match step
    case DispatchReady(x, _, _) =>
      && x == id && n.state.Pending? && n.nextAttemptAt <= s.loop.now
      && (forall p :: p in n.spec.prerequisites ==> p in s.nodes && s.nodes[p].state.Done?)
      && n'.state.Ready? && n'.waitingOn == NoReason && SameRecord(n, n')
    case BeginTask(t, _) => Of(s, t, id) && ToImage(n, n')
    case LookedUp(t, found, _, _) => Of(s, t, id) && found.Miss? && ToImage(n, n')
    case Ensured(t, failure, _, _) =>
      && Of(s, t, id) && failure.None? && n.state.Waiting? && n.waitingOn == ForImage
      && n'.state.Ready? && n'.waitingOn == NoReason && SameRecord(n, n')
    case Launch(t, _) =>
      && Of(s, t, id) && n.state.Ready? && n'.state.Running?
      && n'.attempt == n.attempt + 1 && n'.nextAttemptAt == 0 && n'.failures == n.failures && n'.report == n.report
      && n'.waitingOn == n.waitingOn
    case WaitStart(_, parent, _, _, _) =>
      && parent == id && id in s.active && s.active[id] in s.tasks && s.tasks[s.active[id]].held
      && n.InAttempt() && n'.state.Waiting? && n'.waitingOn == ForChildren && SameRecord(n, n')
    case Restore(k, _) =>
      && k in s.calls && s.calls[k].parent == id && Resumes(s, id, s.calls[k].task)
      && n.InAttempt() && n'.state.Running? && n'.waitingOn == NoReason && SameRecord(n, n')
    case _ => false
  }

  predicate ToImage(n: Node, n': Node) {
    n.state.Ready? && n.spec.imageKey != [] && n'.state.Waiting? && n'.waitingOn == ForImage && SameRecord(n, n')
  }

  /** An attempt that came back without an error leaves its output and no message. */
  predicate Succeeded(n: Node, n': Node, output: Bytes) {
    && n'.state.Done? && n'.report.output == output && n'.report.error == "" && n'.waitingOn == NoReason
    && n'.attempt == n.attempt && n'.failures == n.failures
  }

  /** One that failed leaves its output and its message. It is one failure more; the node waits for
      its backoff to end, or has failed for good if the error is cacheable or the last allowed. */
  predicate FailedWith(n: Node, n': Node, output: Bytes, f: Failure, now: Time) {
    && n'.report.output == output && n'.report.error == f.message
    && n'.attempt == n.attempt && n'.failures == n.failures + 1
    && if f.cacheable || n.failures + 1 >= Max(n.spec.maxAttempts, 1) then n'.state.Failed? && n'.waitingOn == NoReason
       else n'.state.Pending? && n'.waitingOn == ForRetry && n'.nextAttemptAt == now + Backoff(n.failures + 1)
  }

  /** What an attempt of goroutine `t` makes of its node. */
  predicate AttemptEnds(s: Exec, t: TaskId, n: Node, n': Node)
    requires t in s.tasks
  {
    match s.tasks[t].failure
    case None => Succeeded(n, n', s.tasks[t].output)
    case Some(f) => FailedWith(n, n', s.tasks[t].output, f, s.loop.now)
  }

  /** A cache hit: the stored output, or the stored output and message of a failure. */
  predicate HitEnds(n: Node, n': Node, found: Lookup)
    requires found.Hit?
  {
    && n'.report.output == found.output && n'.attempt == n.attempt && n'.failures == n.failures && n'.waitingOn == n.waitingOn
    && match found.failure
       case None => n'.state.Done? && n'.report.error == "" && n'.report.cacheHit
       case Some(f) => n'.state.Failed? && n'.report.error == f.message && (n'.report.cacheHit <==> f.cacheable)
  }

  /** The node is canceled or fails without an attempt having ended: the message says why, the
      output is kept. */
  predicate Stopped(n: Node, n': Node, state: State, reason: WaitReason, message: string) {
    && n'.state == state && n'.waitingOn == reason && n'.report == n.report.(error := message)
    && n'.attempt == n.attempt && n'.failures == n.failures && n'.nextAttemptAt == n.nextAttemptAt
  }

  /** What the nodes are told that a step closes along with another one. */
  function Reason(step: Step): Option<(set<Id>, string)> {
    match step
    case ReturnByRoot(c) => Some((c.done, "root action completed"))
    case LookedUp(_, _, _, c) => Some((c.done, "parent action completed"))
    case Ensured(_, _, _, c) => Some((c.done, "parent action failed"))
    case FinishTask(_, _, c) => Some((c.done, "parent action completed"))
    case CancelTree(_, _, c) => Some((c.done, "ancestor canceled"))
    case CancelAll(c) => Some((c.done, "run canceled"))
    case _ => None
  }

  predicate ClosedAlong(step: Step, id: Id, n: Node, n': Node) {
    && Reason(step).Some? && id in Reason(step).value.0
    && !n.Terminal() && Stopped(n, n', Canceled, NoReason, Reason(step).value.1)
  }

  /** The step is about this node itself. */
  predicate OwnEnd(s: Exec, step: Step, id: Id, n: Node, n': Node) {
    match step
    case DispatchFail(x, p, _) =>
      && x == id && n.state.Pending? && n.nextAttemptAt <= s.loop.now
      && p in n.spec.prerequisites && (p in s.nodes ==> s.nodes[p].state.Failed? || s.nodes[p].state.Canceled?)
      && Stopped(n, n', Failed, n.waitingOn, "prerequisite failed")
    case LookedUp(t, found, _, _) => Of(s, t, id) && found.Hit? && n.Idle() && HitEnds(n, n', found)
    case Ensured(t, failure, _, _) => Of(s, t, id) && failure.Some? && n.Idle() && Stopped(n, n', Failed, NoReason, failure.value)
    case FinishTask(t, _, _) => Of(s, t, id) && n.InAttempt() && AttemptEnds(s, t, n, n')
    case CancelTree(x, _, _) => x == id && !n.Terminal() && Stopped(n, n', Canceled, n.waitingOn, "action canceled")
    case _ => false
  }

  /** One of these, or nothing, happens to a node in a step. */
  ghost predicate Changes(s: Exec, step: Step, s': Exec, id: Id)
    requires id in s.nodes
  {
    && id in s'.nodes && s'.nodes[id].spec == s.nodes[id].spec
    && (s'.nodes[id] != s.nodes[id] ==>
          var n, n' := s.nodes[id], s'.nodes[id];
          GoesOn(s, step, id, n, n') || OwnEnd(s, step, id, n, n') || ClosedAlong(step, id, n, n'))
  }

  // ---- Every step keeps to it -----------------------------------------------

  lemma Unchanged(s: Exec, step: Step, s': Exec, id: Id)
    requires id in s.nodes && id in s'.nodes && s'.nodes[id] == s.nodes[id]
    ensures Changes(s, step, s', id)
  {
  }

  lemma QuietChanges(s: Exec, step: Step, s': Exec, id: Id)
    requires id in s.nodes
    requires if LoopStep(step) then LoopNext(s, step, s') else ClockStep(step) && ClockNext(s, step, s')
    ensures Changes(s, step, s', id)
  {
    hide Changes, Settled, RootLive;
    Unchanged(s, step, s', id);
  }

  lemma DispatchChanges(s: Exec, step: Step, s': Exec, id: Id)
    requires id in s.nodes && DispatchStep(step) && DispatchNext(s, step, s')
    ensures Changes(s, step, s', id)
  {
    hide LostEntries;
  }

  /** A commit of node `id` with a close below it. */
  lemma CloseChanges(s: Exec, step: Step, from_: Exec, x: Id, next: Node, ok: bool, c: Closing, reason: string, id: Id)
    requires id in s.nodes && x in s.nodes && from_.nodes == s.nodes && from_.loop == s.loop && next.spec == s.nodes[x].spec
    requires ClosesBelow(s, x, next, ok, c) && next.Terminal() && Reason(step) == Some((c.done, reason))
    requires OwnEnd(s, step, x, s.nodes[x], next)
    ensures Changes(s, step, CommitAndClose(from_, x, next, ok, c, reason), id)
  {
    hide OwnEnd, GoesOn, CloseSet;
  }

  lemma ImageChanges(s: Exec, step: Step, t: TaskId, ok: bool, id: Id)
    requires id in s.nodes && t in s.tasks && s.tasks[t].node in s.nodes && s.nodes[s.tasks[t].node].state.Ready?
    requires !s.loop.ctxDone && (step == BeginTask(t, ok) || (step.LookedUp? && step.t == t && step.found.Miss?))
    ensures Changes(s, step, ImageOrAcquire(s, t, ok), id)
  {
  }

  lemma BeginChanges(s: Exec, step: Step, s': Exec, id: Id)
    requires id in s.nodes && (step.BeginTask? || step.AcquireAborted?) && EarlyNext(s, step, s')
    ensures Changes(s, step, s', id)
  {
    hide Changes, ImageOrAcquire;
    if step.BeginTask? && s.nodes[s.tasks[step.t].node].state.Ready? && !s.loop.ctxDone { ImageChanges(s, step, step.t, step.ok, id); }
    if s'.nodes == s.nodes { Unchanged(s, step, s', id); }
  }

  /** A goroutine that looks something up or waits for its image has a node that is ready or
      waits for its image, or has ended. */
  lemma Looking(s: Exec, t: TaskId)
    requires Inv(s) && (At(s, t, LookingUp) || At(s, t, Ensuring)) && !s.nodes[s.tasks[t].node].Terminal()
    ensures var n := s.nodes[s.tasks[t].node];
            n.Idle() && (At(s, t, LookingUp) ==> n.state.Ready?) && (At(s, t, Ensuring) ==> n.state.Waiting? && n.waitingOn == ForImage)
  {
    hide Inv;
    OwnGoroutine(s, t);
  }

  lemma LookedUpChanges(s: Exec, step: Step, s': Exec, id: Id)
    requires Inv(s) && id in s.nodes && step.LookedUp? && EarlyNext(s, step, s')
    ensures Changes(s, step, s', id)
  {
    hide Inv, Changes, ImageOrAcquire, CommitAndClose, ClosesBelow;
    var x := s.tasks[step.t].node;
    if Abandons(s, step.t) {
      Unchanged(s, step, s', id);
    } else {
      Looking(s, step.t);
      if step.found.Miss? {
        ImageChanges(s, step, step.t, step.ok, id);
      } else {
        CloseChanges(s, step, Exit(s, step.t), x, HitNode(s.nodes[x], step.found), step.ok, step.c, "parent action completed", id);
      }
    }
  }

  lemma EnsuredChanges(s: Exec, step: Step, s': Exec, id: Id)
    requires Inv(s) && id in s.nodes && step.Ensured? && EarlyNext(s, step, s')
    ensures Changes(s, step, s', id)
  {
    hide Inv, CommitAndClose, ClosesBelow;
    var x := s.tasks[step.t].node;
    if !Abandons(s, step.t) {
      Looking(s, step.t);
      if step.imageFailure.Some? {
        hide Changes;
        CloseChanges(s, step, Exit(s, step.t), x, ImageFailed(s.nodes[x], step.imageFailure.value), step.ok, step.c, "parent action failed", id);
      }
    }
  }

  /** An attempt that stands has its node in it. */
  lemma Standing(s: Exec, t: TaskId)
    requires Inv(s) && At(s, t, Returned) && AttemptStands(s, t)
    ensures s.nodes[s.tasks[t].node].InAttempt() && !s.loop.ctxDone
  {
    hide Inv;
    OwnGoroutine(s, t);
  }

  lemma OutcomeIs(s: Exec, t: TaskId)
    requires At(s, t, Returned)
    ensures AttemptEnds(s, t, s.nodes[s.tasks[t].node], OutcomeOf(s, t)) && OutcomeOf(s, t).spec == s.nodes[s.tasks[t].node].spec
    ensures OutcomeOf(s, t).Terminal() || OutcomeOf(s, t).state.Pending?
  {
    hide Backoff;
  }

  lemma FinishChanges(s: Exec, step: Step, s': Exec, id: Id)
    requires Inv(s) && id in s.nodes && step.FinishTask? && LateNext(s, step, s')
    ensures Changes(s, step, s', id)
  {
    hide Inv, CommitAndClose, ClosesBelow, OutcomeOf, AttemptEnds, AttemptStands;
    if AttemptStands(s, step.t) {
      Standing(s, step.t);
      OutcomeIs(s, step.t);
      if !OutcomeOf(s, step.t).state.Pending? {
        hide Changes;
        CloseChanges(s, step, Leave(s, step.t), s.tasks[step.t].node, OutcomeOf(s, step.t), step.ok, step.c, "parent action completed", id);
      }
    }
  }

  lemma LateChanges(s: Exec, step: Step, s': Exec, id: Id)
    requires Inv(s) && id in s.nodes && LateStep(step) && LateNext(s, step, s')
    ensures Changes(s, step, s', id)
  {
    hide Inv;
    if step.FinishTask? {
      hide LateNext, Changes;
      FinishChanges(s, step, s', id);
    }
  }

  /** The parent of a wait has an attempt in progress. */
  lemma ParentInAttempt(s: Exec, parent: Id)
    requires Inv(s) && parent in s.nodes && parent in s.active && !s.nodes[parent].Terminal()
    ensures s.nodes[parent].InAttempt()
  {
    assert ActiveOk(s, parent);
    assert TaskOk(s, s.active[parent]);
    hide NodesOk;
  }

  lemma WaitChanges(s: Exec, step: Step, s': Exec, id: Id)
    requires Inv(s) && id in s.nodes && step.WaitStart? && CallNext(s, step, s')
    ensures Changes(s, step, s', id)
  {
    hide Inv, Over;
    ParentInAttempt(s, step.parent);
  }

  lemma RestoreChanges(s: Exec, step: Step, s': Exec, id: Id)
    requires Inv(s) && id in s.nodes && step.Restore? && CallNext(s, step, s')
    ensures Changes(s, step, s', id)
  {
    hide Inv;
    if CanReclaim(s, step.k) { ParentInAttempt(s, s.calls[step.k].parent); } else { Unchanged(s, step, s', id); }
  }

  lemma CallChanges(s: Exec, step: Step, s': Exec, id: Id)
    requires Inv(s) && id in s.nodes && CallStep(step) && CallNext(s, step, s')
    ensures Changes(s, step, s', id)
  {
    hide Inv, Changes, ParentActive, Over, CanReclaim;
    if step.WaitStart? {
      hide CallNext;
      WaitChanges(s, step, s', id);
    } else if step.Restore? {
      hide CallNext;
      RestoreChanges(s, step, s', id);
    } else {
      assert s'.nodes == s.nodes;
      hide CallNext;
      Unchanged(s, step, s', id);
    }
  }

  lemma CancelChanges(s: Exec, step: Step, s': Exec, id: Id)
    requires id in s.nodes && CloseStep(step) && CloseNext(s, step, s')
    ensures Changes(s, step, s', id)
  {
    hide CommitAndClose, ClosesBelow, CloseSet;
    if step.CancelTree? && !s.nodes[step.id].Terminal() {
      hide Changes;
      CloseChanges(s, step, CancelAttempt(s, step.id), step.id, CanceledAction(s.nodes[step.id]), step.ok, step.c, "ancestor canceled", id);
    }
  }

  lemma AddChanges(s: Exec, step: Step, s': Exec, id: Id)
    requires id in s.nodes && AddStep(step) && AddNext(s, step, s')
    ensures Changes(s, step, s', id)
  {
    hide Changes;
    Unchanged(s, step, s', id);
  }

  /** The life cycle: whatever happens to a node in a step is one of its moves, with the record it
      leaves. */
  lemma StepChanges(s: Exec, step: Step, s': Exec, id: Id)
    requires Inv(s) && Next(s, step, s') && id in s.nodes
    ensures Changes(s, step, s', id)
  {
    hide Inv, Changes, LoopNext, ClockNext, DispatchNext, EarlyNext, LateNext, CallNext, CloseNext, AddNext;
    if LoopStep(step) || ClockStep(step) { QuietChanges(s, step, s', id); }
    else if DispatchStep(step) { DispatchChanges(s, step, s', id); }
    else if EarlyStep(step) {
      if step.LookedUp? { LookedUpChanges(s, step, s', id); }
      else if step.Ensured? { EnsuredChanges(s, step, s', id); }
      else { BeginChanges(s, step, s', id); }
    }
    else if LateStep(step) { LateChanges(s, step, s', id); }
    else if CallStep(step) { CallChanges(s, step, s', id); }
    else if CloseStep(step) { CancelChanges(s, step, s', id); }
    else { AddChanges(s, step, s', id); }
  }

  // ---- And it does happen ---------------------------------------------------

  /** The goroutine's node is live, and so is the run. */
  predicate Carries(s: Exec, t: TaskId) {
    t in s.tasks && s.tasks[t].node in s.nodes && !s.nodes[s.tasks[t].node].Terminal() && !s.loop.ctxDone
  }

  /** Unless the store refused, the step has done to its node what it is there for. */
  predicate Effective(s: Exec, step: Step, s': Exec) {
    match step
    case DispatchFail(x, _, _) => x in s.nodes && x in s'.nodes && OwnEnd(s, step, x, s.nodes[x], s'.nodes[x])
    case DispatchReady(x, _, _) => x in s.nodes && x in s'.nodes && GoesOn(s, step, x, s.nodes[x], s'.nodes[x])
    case BeginTask(t, _) =>
      if !Carries(s, t) then true
      else
        var n := s.nodes[s.tasks[t].node];
        n.state.Ready? && n.spec.cacheKey == [] && n.spec.imageKey != [] ==> Moved(s, step, s', t)
    case LookedUp(t, found, _, _) =>
      if !Carries(s, t) then true
      else if found.Hit? then EndedItself(s, step, s', t)
      else s.nodes[s.tasks[t].node].spec.imageKey != [] ==> Moved(s, step, s', t)
    case Ensured(t, failure, _, _) =>
      Carries(s, t) ==> if failure.Some? then EndedItself(s, step, s', t) else Moved(s, step, s', t)
    case Launch(t, _) => Carries(s, t) && s.nodes[s.tasks[t].node].state.Ready? ==> Moved(s, step, s', t)
    case FinishTask(t, _, _) => Carries(s, t) ==> EndedItself(s, step, s', t)
    case WaitStart(_, parent, _, child, _) =>
      parent in s.active && s.active[parent] in s.tasks && s.tasks[s.active[parent]].held && child in s.nodes && !s.nodes[child].Terminal() ==>
        parent in s.nodes && parent in s'.nodes && GoesOn(s, step, parent, s.nodes[parent], s'.nodes[parent])
    case Restore(k, _) =>
      k in s.calls && Resumes(s, s.calls[k].parent, s.calls[k].task) ==>
        s.calls[k].parent in s'.nodes && GoesOn(s, step, s.calls[k].parent, s.nodes[s.calls[k].parent], s'.nodes[s.calls[k].parent])
    case CancelTree(x, _, _) =>
      x in s.nodes && x in s'.nodes && (!s.nodes[x].Terminal() ==> OwnEnd(s, step, x, s.nodes[x], s'.nodes[x]))
    case CancelAll(_) => s'.loop.ctxDone && forall id :: id in s'.nodes ==> s'.nodes[id].Terminal()
    case ReturnByRoot(_) => s'.loop.ctxDone && forall id :: id in s'.nodes ==> s'.nodes[id].Terminal()
    case AddNode(parent, _, id, node) => id in s'.nodes && s'.nodes[id] == node.(spec := node.spec.(parent := Some(parent)))
    case _ => true
  }

  predicate Moved(s: Exec, step: Step, s': Exec, t: TaskId) {
    t in s.tasks && s.tasks[t].node in s.nodes && s.tasks[t].node in s'.nodes
    && GoesOn(s, step, s.tasks[t].node, s.nodes[s.tasks[t].node], s'.nodes[s.tasks[t].node])
  }

  predicate EndedItself(s: Exec, step: Step, s': Exec, t: TaskId) {
    t in s.tasks && s.tasks[t].node in s.nodes && s.tasks[t].node in s'.nodes
    && OwnEnd(s, step, s.tasks[t].node, s.nodes[s.tasks[t].node], s'.nodes[s.tasks[t].node])
  }

  /** A commit that was not refused is there after the close that follows it. */
  lemma CommitStays(s: Exec, from_: Exec, x: Id, next: Node, ok: bool, c: Closing, reason: string)
    requires x in s.nodes && from_.nodes == s.nodes && from_.loop == s.loop && ClosesBelow(s, x, next, ok, c) && next.Terminal()
    requires !CommitAndClose(from_, x, next, ok, c, reason).loop.failed
    ensures x in CommitAndClose(from_, x, next, ok, c, reason).nodes && CommitAndClose(from_, x, next, ok, c, reason).nodes[x] == next
  {
    hide CloseSet;
  }

  lemma EarlyIsEffective(s: Exec, step: Step, s': Exec)
    requires Inv(s) && EarlyStep(step) && EarlyNext(s, step, s') && !s'.loop.failed
    ensures Effective(s, step, s')
  {
    hide Inv;
    if step.LookedUp? {
      LookedUpIsEffective(s, step, s');
    } else if step.Ensured? {
      EnsuredIsEffective(s, step, s');
    }
  }

  lemma LookedUpIsEffective(s: Exec, step: Step, s': Exec)
    requires Inv(s) && step.LookedUp? && EarlyNext(s, step, s') && !s'.loop.failed
    ensures Effective(s, step, s')
  {
    hide Inv, CommitAndClose, ClosesBelow;
    var x := s.tasks[step.t].node;
    if !Abandons(s, step.t) {
      Looking(s, step.t);
      if step.found.Hit? {
        CommitStays(s, Exit(s, step.t), x, HitNode(s.nodes[x], step.found), step.ok, step.c, "parent action completed");
      }
    }
  }

  lemma EnsuredIsEffective(s: Exec, step: Step, s': Exec)
    requires Inv(s) && step.Ensured? && EarlyNext(s, step, s') && !s'.loop.failed
    ensures Effective(s, step, s')
  {
    hide Inv, CommitAndClose, ClosesBelow;
    var x := s.tasks[step.t].node;
    if !Abandons(s, step.t) {
      Looking(s, step.t);
      if step.imageFailure.Some? {
        CommitStays(s, Exit(s, step.t), x, ImageFailed(s.nodes[x], step.imageFailure.value), step.ok, step.c, "parent action failed");
      }
    }
  }

  /** An attempt that came back stands exactly if its node and the run are live: no other attempt of
      the node can have begun. */
  lemma StandsExactly(s: Exec, t: TaskId)
    requires Inv(s) && At(s, t, Returned)
    ensures AttemptStands(s, t) <==> Carries(s, t)
  {
    hide Inv;
    OwnGoroutine(s, t);
  }

  lemma FinishIsEffective(s: Exec, step: Step, s': Exec)
    requires Inv(s) && step.FinishTask? && LateNext(s, step, s') && !s'.loop.failed
    ensures Effective(s, step, s')
  {
    hide Inv, CommitAndClose, ClosesBelow, OutcomeOf, AttemptEnds, AttemptStands;
    StandsExactly(s, step.t);
    if AttemptStands(s, step.t) {
      Standing(s, step.t);
      OutcomeIs(s, step.t);
      if !OutcomeOf(s, step.t).state.Pending? {
        CommitStays(s, Leave(s, step.t), s.tasks[step.t].node, OutcomeOf(s, step.t), step.ok, step.c, "parent action completed");
      }
    }
  }

  lemma LateIsEffective(s: Exec, step: Step, s': Exec)
    requires Inv(s) && LateStep(step) && LateNext(s, step, s') && !s'.loop.failed
    ensures Effective(s, step, s')
  {
    hide Inv;
    if step.FinishTask? {
      hide LateNext, Effective;
      FinishIsEffective(s, step, s');
    }
  }

  lemma DispatchIsEffective(s: Exec, step: Step, s': Exec)
    requires DispatchStep(step) && DispatchNext(s, step, s') && !s'.loop.failed
    ensures Effective(s, step, s')
  {
    hide LostEntries;
  }

  lemma RestoreIsEffective(s: Exec, step: Step, s': Exec)
    requires Inv(s) && step.Restore? && CallNext(s, step, s') && !s'.loop.failed
    ensures Effective(s, step, s')
  {
    hide Inv;
    var parent := s.calls[step.k].parent;
    if Resumes(s, parent, s.calls[step.k].task) { ParentInAttempt(s, parent); }
  }

  lemma CallIsEffective(s: Exec, step: Step, s': Exec)
    requires Inv(s) && CallStep(step) && CallNext(s, step, s') && !s'.loop.failed
    ensures Effective(s, step, s')
  {
    hide Inv, CanReclaim, Over;
    if step.WaitStart? {
      ParentInAttempt(s, step.parent);
    } else if step.Restore? {
      hide CallNext, Effective;
      RestoreIsEffective(s, step, s');
    } else {
      hide CallNext;
    }
  }

  lemma CancelIsEffective(s: Exec, step: Step, s': Exec)
    requires CloseStep(step) && CloseNext(s, step, s') && !s'.loop.failed
    ensures Effective(s, step, s')
  {
    hide CommitAndClose, ClosesBelow, CloseSet;
    if step.CancelTree? {
      if s.nodes[step.id].Terminal() {
        assert step.id in s'.nodes;
      } else {
        CommitStays(s, CancelAttempt(s, step.id), step.id, CanceledAction(s.nodes[step.id]), step.ok, step.c, "ancestor canceled");
      }
    } else {
      CloseAllEnds(s, step.c, if step.CancelAll? then "run canceled" else "root action completed");
    }
  }

  /** A close of everything that was not refused leaves nothing live. */
  lemma CloseAllEnds(s: Exec, c: Closing, reason: string)
    requires ClosingPossible(s, CloseSet(s.nodes, NIL), c) && c.Ok()
    ensures forall id :: id in Close(s, c, reason).nodes ==> Close(s, c, reason).nodes[id].Terminal()
  {
  }

  /** A step none of whose writes was refused takes effect. */
  lemma StepIsEffective(s: Exec, step: Step, s': Exec)
    requires Inv(s) && Next(s, step, s') && !s'.loop.failed
    ensures Effective(s, step, s')
  {
    hide Inv, LoopNext, ClockNext, DispatchNext, EarlyNext, LateNext, CallNext, CloseNext, AddNext;
    if DispatchStep(step) { DispatchIsEffective(s, step, s'); }
    else if EarlyStep(step) { EarlyIsEffective(s, step, s'); }
    else if LateStep(step) { LateIsEffective(s, step, s'); }
    else if CallStep(step) { CallIsEffective(s, step, s'); }
    else if CloseStep(step) { CancelIsEffective(s, step, s'); }
    else if AddStep(step) { AddIsEffective(s, step, s'); }
  }

  lemma AddIsEffective(s: Exec, step: Step, s': Exec)
    requires AddStep(step) && AddNext(s, step, s')
    ensures Effective(s, step, s')
  {
  }

  // ---- What does not happen -------------------------------------------------

  /** A node that was not there comes only from a call of its parent's attempt, which is the recorded one
      of a live parent. */
  lemma OnlyAdded(s: Exec, step: Step, s': Exec, id: Id)
    requires Next(s, step, s') && id !in s.nodes && id in s'.nodes
    ensures step.AddNode? && step.id == id && !s.loop.failed
    ensures step.parent in s.nodes && !s.nodes[step.parent].Terminal() && step.parent in s.active && s.nodes[step.parent].attempt == step.attempt
  {
    hide LoopNext, ClockNext, DispatchNext, EarlyNext, LateNext, CallNext, CloseNext;
    if LoopStep(step) { LoopAddsNothing(s, step, s'); }
    else if ClockStep(step) { ClockAddsNothing(s, step, s'); }
    else if DispatchStep(step) { DispatchAddsNothing(s, step, s'); }
    else if EarlyStep(step) { EarlyAddsNothing(s, step, s'); }
    else if LateStep(step) { LateAddsNothing(s, step, s'); }
    else if CallStep(step) { CallAddsNothing(s, step, s'); }
    else if CloseStep(step) { CloseAddsNothing(s, step, s'); }
  }

  lemma CommitAddsNothing(s: Exec, id: Id, next: Node, ok: bool, c: Closing, reason: string)
    requires id in s.nodes
    ensures CommitAndClose(s, id, next, ok, c, reason).nodes.Keys == s.nodes.Keys
  {
  }

  lemma LoopAddsNothing(s: Exec, step: Step, s': Exec)
    requires LoopStep(step) && LoopNext(s, step, s')
    ensures s'.nodes.Keys == s.nodes.Keys
  {
  }

  lemma ClockAddsNothing(s: Exec, step: Step, s': Exec)
    requires ClockStep(step) && ClockNext(s, step, s')
    ensures s'.nodes.Keys == s.nodes.Keys
  {
  }

  lemma DispatchAddsNothing(s: Exec, step: Step, s': Exec)
    requires DispatchStep(step) && DispatchNext(s, step, s')
    ensures s'.nodes.Keys == s.nodes.Keys
  {
  }

  lemma EarlyAddsNothing(s: Exec, step: Step, s': Exec)
    requires EarlyStep(step) && EarlyNext(s, step, s')
    ensures s'.nodes.Keys == s.nodes.Keys
  {
    hide ClosesBelow, CommitAndClose, HitNode, ImageFailed;
    if step.LookedUp? && step.found.Hit? {
      CommitAddsNothing(Exit(s, step.t), s.tasks[step.t].node, HitNode(s.nodes[s.tasks[step.t].node], step.found), step.ok, step.c, "parent action completed");
    }
    if step.Ensured? && step.imageFailure.Some? {
      CommitAddsNothing(Exit(s, step.t), s.tasks[step.t].node, ImageFailed(s.nodes[s.tasks[step.t].node], step.imageFailure.value), step.ok, step.c,
                        "parent action failed");
    }
  }

  lemma LateAddsNothing(s: Exec, step: Step, s': Exec)
    requires LateStep(step) && LateNext(s, step, s')
    ensures s'.nodes.Keys == s.nodes.Keys
  {
    hide ClosesBelow, CommitAndClose, OutcomeOf, AttemptStands;
    if step.FinishTask? {
      CommitAddsNothing(Leave(s, step.t), s.tasks[step.t].node, OutcomeOf(s, step.t), step.ok, step.c, "parent action completed");
    }
  }

  lemma CallAddsNothing(s: Exec, step: Step, s': Exec)
    requires CallStep(step) && CallNext(s, step, s')
    ensures s'.nodes.Keys == s.nodes.Keys
  {
    hide Over, CanReclaim;
  }

  lemma CloseAddsNothing(s: Exec, step: Step, s': Exec)
    requires CloseStep(step) && CloseNext(s, step, s')
    ensures s'.nodes.Keys == s.nodes.Keys
  {
    hide CloseSet, ClosesBelow, CommitAndClose;
    if step.CancelTree? {
      CommitAddsNothing(CancelAttempt(s, step.id), step.id, CanceledAction(s.nodes[step.id]), step.ok, step.c, "ancestor canceled");
    }
  }

  /** A step by which a goroutine or a resumed parent would move its node on. */
  predicate Executes(step: Step) {
    EarlyStep(step) || LateStep(step) || step.Restore?
  }

  lemma ContextIsChecked(s: Exec, step: Step, s': Exec)
    requires Next(s, step, s') && s.loop.ctxDone && Executes(step)
    ensures s'.nodes == s.nodes && s'.loop.ctxDone
  {
    hide ClosesBelow, HitNode, ImageFailed, OutcomeOf, ImageOrAcquire, CommitAndClose, LoopNext, ClockNext, DispatchNext, CloseNext, AddNext;
  }

  lemma ContextStaysEnded(s: Exec, step: Step, s': Exec)
    requires Next(s, step, s') && s.loop.ctxDone
    ensures s'.loop.ctxDone
  {
    hide ClosesBelow, ImageOrAcquire, CloseSet, LoopNext, ClockNext, DispatchNext, EarlyNext, LateNext, CallNext, CloseNext, AddNext;
    if Executes(step) { ContextIsChecked(s, step, s'); }
    else if LoopStep(step) { LoopKeepsContext(s, step, s'); }
    else if CallStep(step) || CloseStep(step) { OthersKeepContext(s, step, s'); }
    else { RestKeepContext(s, step, s'); }
  }

  lemma LoopKeepsContext(s: Exec, step: Step, s': Exec)
    requires LoopStep(step) && LoopNext(s, step, s') && s.loop.ctxDone
    ensures s'.loop.ctxDone
  {
  }

  lemma OthersKeepContext(s: Exec, step: Step, s': Exec)
    requires s.loop.ctxDone && if CallStep(step) then CallNext(s, step, s') else CloseStep(step) && CloseNext(s, step, s')
    ensures s'.loop.ctxDone
  {
    if CallStep(step) { CallsKeepContext(s, step, s'); } else { ClosesKeepContext(s, step, s'); }
    hide *;
  }

  lemma CallsKeepContext(s: Exec, step: Step, s': Exec)
    requires s.loop.ctxDone && CallStep(step) && CallNext(s, step, s')
    ensures s'.loop.ctxDone
  {
    hide ParentActive, Over, CanReclaim;
  }

  lemma ClosesKeepContext(s: Exec, step: Step, s': Exec)
    requires s.loop.ctxDone && CloseStep(step) && CloseNext(s, step, s')
    ensures s'.loop.ctxDone
  {
    hide CloseSet, ClosesBelow, CanceledIn;
  }

  lemma RestKeepContext(s: Exec, step: Step, s': Exec)
    requires s.loop.ctxDone && !LoopStep(step) && !EarlyStep(step) && !LateStep(step) && !CallStep(step) && !CloseStep(step) && Next(s, step, s')
    ensures s'.loop.ctxDone
  {
    hide LostEntries, AllDone, Lost;
  }

  /** Once the run's context has ended no goroutine moves its node on any more: nothing is looked up,
      started, published or resumed, whatever its answers are. */
  lemma {:induction false} EndedRunExecutesNothing(trace: seq<Exec>, steps: seq<Step>, i: nat, j: nat)
    requires GoodRun(trace, steps) && i <= j < |steps| < |trace| && trace[i].loop.ctxDone
    ensures trace[j].loop.ctxDone && trace[j + 1].loop.ctxDone
    ensures Executes(steps[j]) ==> trace[j + 1].nodes == trace[j].nodes
  {
    hide Next, GoodRun, Executes;
    if i < j { EndedRunExecutesNothing(trace, steps, i, j - 1); }
    NthStep(trace, steps, j);
    ContextStaysEnded(trace[j], steps[j], trace[j + 1]);
    if Executes(steps[j]) { ContextIsChecked(trace[j], steps[j], trace[j + 1]); }
  }

  // ---- What an attempt leaves -----------------------------------------------

  /** Goroutine `t` is where it was, with what the runner gave it. */
  predicate SameTask(s: Exec, s': Exec, t: TaskId) {
    && t in s.tasks && t in s'.tasks && s'.tasks[t].node == s.tasks[t].node && s'.tasks[t].phase == s.tasks[t].phase
    && s'.tasks[t].number == s.tasks[t].number && s'.tasks[t].output == s.tasks[t].output && s'.tasks[t].failure == s.tasks[t].failure
  }

  /** The steps of goroutine `t` itself. */
  predicate OwnStep(step: Step, t: TaskId) {
    match step
    case BeginTask(u, _) => u == t
    case LookedUp(u, _, _, _) => u == t
    case Ensured(u, _, _, _) => u == t
    case Acquire(u) => u == t
    case AcquireAborted(u) => u == t
    case Launch(u, _) => u == t
    case Return(u, _, _) => u == t
    case FinishTask(u, _, _) => u == t
    case _ => false
  }

  lemma CloseKeepsTask(s: Exec, c: Closing, reason: string, t: TaskId)
    requires t in s.tasks
    ensures SameTask(s, Close(s, c, reason), t)
  {
    hide CanceledIn, ClosedLoop;
  }

  lemma CommitKeepsTask(s: Exec, id: Id, next: Node, ok: bool, c: Closing, reason: string, t: TaskId)
    requires t in s.tasks
    ensures SameTask(s, CommitAndClose(s, id, next, ok, c, reason), t)
  {
    if Accepted(s, ok) { CloseKeepsTask(Wrote(s, id, next), c, reason, t); }
    hide Close;
  }

  lemma ExitKeepsTask(s: Exec, u: TaskId, t: TaskId)
    requires u in s.tasks && t in s.tasks && t != u
    ensures SameTask(s, Exit(s, u), t)
  {
  }

  lemma EarlyKeepsTask(s: Exec, step: Step, s': Exec, t: TaskId)
    requires EarlyStep(step) && EarlyNext(s, step, s') && t in s.tasks && !OwnStep(step, t)
    ensures SameTask(s, s', t)
  {
    hide ClosesBelow, HitNode, ImageFailed, CommitAndClose;
    ExitKeepsTask(s, step.t, t);
    var id := s.tasks[step.t].node;
    if step.LookedUp? && step.found.Hit? {
      CommitKeepsTask(Exit(s, step.t), id, HitNode(s.nodes[id], step.found), step.ok, step.c, "parent action completed", t);
    } else if step.Ensured? && step.imageFailure.Some? {
      CommitKeepsTask(Exit(s, step.t), id, ImageFailed(s.nodes[id], step.imageFailure.value), step.ok, step.c, "parent action failed", t);
    }
  }

  lemma LateKeepsTask(s: Exec, step: Step, s': Exec, t: TaskId)
    requires LateStep(step) && LateNext(s, step, s') && t in s.tasks && !OwnStep(step, t)
    ensures SameTask(s, s', t)
  {
    hide ClosesBelow, OutcomeOf, AttemptStands, CommitAndClose;
    if step.FinishTask? {
      var id := s.tasks[step.t].node;
      if AttemptStands(s, step.t) { CommitKeepsTask(Leave(s, step.t), id, OutcomeOf(s, step.t), step.ok, step.c, "parent action completed", t); }
    }
  }

  lemma CallKeepsTask(s: Exec, step: Step, s': Exec, t: TaskId)
    requires CallStep(step) && CallNext(s, step, s') && t in s.tasks
    ensures SameTask(s, s', t)
  {
    if step.WaitStart? { WaitKeepsTask(s, step, s', t); }
    else if step.Restore? || step.CheckAgain? { ResumeKeepsTask(s, step, s', t); }
    else { RestOfCallKeepsTask(s, step, s', t); }
    hide *;
  }

  lemma WaitKeepsTask(s: Exec, step: Step, s': Exec, t: TaskId)
    requires CallStep(step) && CallNext(s, step, s') && t in s.tasks && step.WaitStart?
    ensures SameTask(s, s', t)
  {
    hide ParentActive;
  }

  lemma ResumeKeepsTask(s: Exec, step: Step, s': Exec, t: TaskId)
    requires CallStep(step) && CallNext(s, step, s') && t in s.tasks && (step.Restore? || step.CheckAgain?)
    ensures SameTask(s, s', t)
  {
    hide ParentActive, Over, CanReclaim;
  }

  lemma RestOfCallKeepsTask(s: Exec, step: Step, s': Exec, t: TaskId)
    requires CallStep(step) && CallNext(s, step, s') && t in s.tasks && !step.WaitStart? && !step.Restore? && !step.CheckAgain?
    ensures SameTask(s, s', t)
  {
    hide ParentActive, Over;
  }

  lemma CancelKeepsTask(s: Exec, step: Step, s': Exec, t: TaskId)
    requires CloseStep(step) && CloseNext(s, step, s') && t in s.tasks
    ensures SameTask(s, s', t)
  {
    hide ClosesBelow, ClosingPossible, Close, CommitAndClose;
    if step.CancelTree? {
      CloseKeepsTask(s, step.c, "ancestor canceled", t);
      CommitKeepsTask(CancelAttempt(s, step.id), step.id, CanceledAction(s.nodes[step.id]), step.ok, step.c, "ancestor canceled", t);
    } else {
      CloseKeepsTask(s, step.c, if step.CancelAll? then "run canceled" else "root action completed", t);
    }
  }

  lemma QuietKeepsTask(s: Exec, step: Step, s': Exec, t: TaskId)
    requires LoopStep(step) || ClockStep(step) || AddStep(step)
    requires if LoopStep(step) then LoopNext(s, step, s') else if ClockStep(step) then ClockNext(s, step, s') else AddNext(s, step, s')
    requires t in s.tasks
    ensures SameTask(s, s', t)
  {
    hide Settled, RootLive;
  }

  lemma DispatchKeepsTask(s: Exec, step: Step, s': Exec, t: TaskId)
    requires DispatchStep(step) && DispatchNext(s, step, s') && t in s.tasks
    ensures SameTask(s, s', t)
  {
    hide AllDone, Lost, LostEntries, Due;
  }

  lemma StepKeepsTask(s: Exec, step: Step, s': Exec, t: TaskId)
    requires Next(s, step, s') && t in s.tasks && !OwnStep(step, t)
    ensures SameTask(s, s', t)
  {
    hide LoopNext, ClockNext, DispatchNext, EarlyNext, LateNext, CallNext, CloseNext, AddNext, SameTask, OwnStep;
    if EarlyStep(step) { EarlyKeepsTask(s, step, s', t); }
    else if LateStep(step) { LateKeepsTask(s, step, s', t); }
    else if CallStep(step) { CallKeepsTask(s, step, s', t); }
    else if CloseStep(step) { CancelKeepsTask(s, step, s', t); }
    else if DispatchStep(step) { DispatchKeepsTask(s, step, s', t); }
    else { QuietKeepsTask(s, step, s', t); }
  }

  /** The runner has handed this back to goroutine `t`, which may have left since. */
  predicate Came(s: Exec, t: TaskId, id: Id, output: Bytes, failure: Option<Failure>) {
    && t in s.tasks && s.tasks[t].node == id && (s.tasks[t].phase.Returned? || s.tasks[t].phase.Exited?)
    && s.tasks[t].output == output && s.tasks[t].failure == failure
  }

  lemma ReturnComes(s: Exec, step: Step, s': Exec)
    requires Next(s, step, s') && step.Return?
    ensures step.t in s.tasks && s.tasks[step.t].node in s.nodes
    ensures Came(s', step.t, s.tasks[step.t].node, step.output, step.failure)
  {
    hide Next;
    LateIs(s, step, s');
  }

  lemma LeavingKeepsResult(s: Exec, step: Step, s': Exec, t: TaskId, id: Id, output: Bytes, failure: Option<Failure>)
    requires step.FinishTask? && step.t == t && LateNext(s, step, s') && Came(s, t, id, output, failure)
    ensures Came(s', t, id, output, failure)
  {
    hide ClosesBelow, OutcomeOf, AttemptStands, CommitAndClose;
    if AttemptStands(s, t) { CommitKeepsTask(Leave(s, t), id, OutcomeOf(s, t), step.ok, step.c, "parent action completed", t); }
  }

  lemma OnlyLeaving(s: Exec, step: Step, s': Exec, t: TaskId)
    requires Next(s, step, s') && OwnStep(step, t) && t in s.tasks && (s.tasks[t].phase.Returned? || s.tasks[t].phase.Exited?)
    ensures step.FinishTask? && LateNext(s, step, s')
  {
    hide ClosesBelow, Begin, LookupReturns, ImageReturns, StartAttempt, Finish, HitNode, ImageFailed, OutcomeOf;
  }

  lemma StepKeepsResult(s: Exec, step: Step, s': Exec, t: TaskId, id: Id, output: Bytes, failure: Option<Failure>)
    requires Next(s, step, s') && Came(s, t, id, output, failure)
    ensures Came(s', t, id, output, failure)
  {
    if OwnStep(step, t) {
      OnlyLeaving(s, step, s', t);
      hide Next, LateNext;
      LeavingKeepsResult(s, step, s', t, id, output, failure);
    } else {
      hide Next;
      StepKeepsTask(s, step, s', t);
    }
  }

  lemma {:induction false} RunKeepsResult(trace: seq<Exec>, steps: seq<Step>, i: nat, j: nat, t: TaskId, id: Id, output: Bytes, failure: Option<Failure>)
    requires GoodRun(trace, steps) && i <= j < |trace| && Came(trace[i], t, id, output, failure)
    ensures Came(trace[j], t, id, output, failure)
  {
    hide Next, GoodRun, Came;
    FirstState(trace, steps);
    if i < j {
      RunKeepsResult(trace, steps, i, j - 1, t, id, output, failure);
      NthStep(trace, steps, j - 1);
      StepKeepsResult(trace[j - 1], steps[j - 1], trace[j], t, id, output, failure);
    }
  }

  /** The standing attempt of goroutine `t` is closed, and the store takes it. */
  predicate Closes(s: Exec, step: Step, s': Exec, t: TaskId) {
    step.FinishTask? && step.t == t && Carries(s, t) && !s'.loop.failed
  }

  lemma ClosedAttempt(trace: seq<Exec>, steps: seq<Step>, k: nat, i: nat)
    requires GoodRun(trace, steps) && k < i < |steps| < |trace| && steps[k].Return? && Closes(trace[i], steps[i], trace[i + 1], steps[k].t)
    ensures var t := steps[k].t;
            && t in trace[k].tasks && Of(trace[i], t, trace[k].tasks[t].node)
            && var id := trace[k].tasks[t].node;
               && id in trace[i].nodes && id in trace[i + 1].nodes
               && match steps[k].failure
                  case None => Succeeded(trace[i].nodes[id], trace[i + 1].nodes[id], steps[k].output)
                  case Some(f) => FailedWith(trace[i].nodes[id], trace[i + 1].nodes[id], steps[k].output, f, trace[i].loop.now)
  {
    hide Inv, Next, GoodRun, Succeeded, FailedWith, AttemptStands;
    var t := steps[k].t;
    NthStep(trace, steps, k);
    NthStep(trace, steps, i);
    ReturnComes(trace[k], steps[k], trace[k + 1]);
    RunKeepsResult(trace, steps, k + 1, i, t, trace[k].tasks[t].node, steps[k].output, steps[k].failure);
    RunInv(trace, steps, i);
    StepIsEffective(trace[i], steps[i], trace[i + 1]);
  }

  /** What a runner returned without an error is the output of its node, which is done without a
      message, in every state after its attempt is closed. */
  lemma OutputIsKept(trace: seq<Exec>, steps: seq<Step>, k: nat, i: nat, j: nat)
    requires GoodRun(trace, steps) && k < i < j <= |steps| < |trace|
    requires steps[k].Return? && steps[k].failure.None? && Closes(trace[i], steps[i], trace[i + 1], steps[k].t)
    ensures steps[k].t in trace[k].tasks
    ensures var id := trace[k].tasks[steps[k].t].node;
            && id in trace[j].nodes && trace[j].nodes[id].state.Done?
            && trace[j].nodes[id].report.output == steps[k].output && trace[j].nodes[id].report.error == ""
  {
    hide Inv, Next, GoodRun, Closes;
    ClosedAttempt(trace, steps, k, i);
    RunKeepsTerminal(trace, steps, i + 1, j, trace[k].tasks[steps[k].t].node);
  }

  /** What it returned with an error is kept the same way: with the output and the message the node
      has failed for good if the error is cacheable or the last allowed, and otherwise waits, one
      failure more, until its backoff has passed. */
  lemma FailureIsKept(trace: seq<Exec>, steps: seq<Step>, k: nat, i: nat, j: nat)
    requires GoodRun(trace, steps) && k < i < j <= |steps| < |trace|
    requires steps[k].Return? && steps[k].failure.Some? && Closes(trace[i], steps[i], trace[i + 1], steps[k].t)
    ensures steps[k].t in trace[k].tasks
    ensures var id, f := trace[k].tasks[steps[k].t].node, steps[k].failure.value;
            && id in trace[i].nodes && id in trace[i + 1].nodes && id in trace[j].nodes
            && trace[i + 1].nodes[id].report.output == steps[k].output && trace[i + 1].nodes[id].report.error == f.message
            && trace[i + 1].nodes[id].failures == trace[i].nodes[id].failures + 1
            && if f.cacheable || trace[i].nodes[id].failures + 1 >= Max(trace[i].nodes[id].spec.maxAttempts, 1)
               then trace[i + 1].nodes[id].state.Failed? && trace[j].nodes[id] == trace[i + 1].nodes[id]
               else trace[i + 1].nodes[id].state.Pending?
                    && trace[i + 1].nodes[id].nextAttemptAt == trace[i].loop.now + Backoff(trace[i].nodes[id].failures + 1)
  {
    hide Inv, Next, GoodRun, Closes, Backoff;
    ClosedAttempt(trace, steps, k, i);
    var id := trace[k].tasks[steps[k].t].node;
    RunKeepsSpec(trace, steps, id, i + 1, j);
    if trace[i + 1].nodes[id].Terminal() { RunKeepsTerminal(trace, steps, i + 1, j, id); }
  }

  /** A cache hit is kept: the stored output, or the stored output and message of a failure. */
  lemma HitIsKept(trace: seq<Exec>, steps: seq<Step>, i: nat, j: nat)
    requires GoodRun(trace, steps) && i < j <= |steps| < |trace|
    requires steps[i].LookedUp? && steps[i].found.Hit? && Carries(trace[i], steps[i].t) && !trace[i + 1].loop.failed
    ensures var id, found := trace[i].tasks[steps[i].t].node, steps[i].found;
            && id in trace[j].nodes && trace[j].nodes[id].report.output == found.output
            && match found.failure
               case None => trace[j].nodes[id].state.Done? && trace[j].nodes[id].report.error == ""
               case Some(f) => trace[j].nodes[id].state.Failed? && trace[j].nodes[id].report.error == f.message
  {
    hide Inv, Next, GoodRun;
    NthStep(trace, steps, i);
    RunInv(trace, steps, i);
    StepIsEffective(trace[i], steps[i], trace[i + 1]);
    RunKeepsTerminal(trace, steps, i + 1, j, trace[i].tasks[steps[i].t].node);
  }
}
