/** Every step of the executor keeps the invariants, one lemma per kind of step. */
module ExecSteps {
  import opened Base
  import opened Graph
  import opened Exec
  import opened ExecInvariants

  /** What a step lemma concludes. */
  ghost predicate Kept(s: Exec, s': Exec) {
    Inv(s') && Evolves(s.nodes, s'.nodes) && s'.nodes.Keys == s.nodes.Keys && (SlotsOk(s) ==> SlotsOk(s'))
  }

  // ---- Parts shared by several steps ----------------------------------------

  lemma RejectedKept(s: Exec)
    requires Inv(s)
    ensures Kept(s, Rejected(s))
  {
    hide Goroutines, SlotsMatch, Tree, Accounts, TimersArmed, Settled, RootLive, AllTerminal;
    RejectedKeepsGoroutines(s);
  }

  /** A goroutine moves on without touching its node. */
  lemma SetTaskKept(s: Exec, t: TaskId, task: Task)
    requires Inv(s) && t in s.tasks && s.tasks[t].node in s.nodes
    requires (task.Alive() ==> s.tasks[t].Alive()) && task.node == s.tasks[t].node
    requires Fits(s.nodes[task.node], task) && (task.Attempting() <==> s.tasks[t].Attempting())
    requires task.resumer == s.tasks[t].resumer
    requires s.tasks[t].Attempting() ==> task.held == s.tasks[t].held
    ensures Kept(s, SetTask(s, t, task))
  {
    hide Goroutines, Fits, SlotsMatch, Tree, Accounts, TimersArmed, Settled, RootLive, AllTerminal;
    SetTaskKeepsGoroutines(s, t, task);
    if SlotsMatch(s.nodes, s.active, s.tasks) { TaskKeepsSlots(s, t, task); }
  }

  /** What a goroutine may rely on about its node. */
  lemma OwnGoroutine(s: Exec, t: TaskId)
    requires Inv(s) && t in s.tasks
    ensures var id := s.tasks[t].node;
            id in s.nodes && id in s.book.ledger && AccountOk(s.nodes[id], s.book.ledger[id], s.loop.now) && Fits(s.nodes[id], s.tasks[t])
  {
    assert TaskOk(s, t);
    hide Tree, TimersArmed, WakeOk, Fits, AccountOk, ActiveOk, CallOk;
  }

  lemma ExitKept(s: Exec, t: TaskId)
    requires Inv(s) && t in s.tasks && !s.tasks[t].Attempting()
    ensures Kept(s, Exit(s, t))
  {
    hide Inv, Kept;
    OwnGoroutine(s, t);
    SetTaskKept(s, t, ExitedTask(s.tasks[t]));
  }

  lemma RejectAndExitKept(s: Exec, t: TaskId)
    requires Inv(s) && t in s.tasks && !s.tasks[t].Attempting()
    ensures Kept(s, Exit(Rejected(s), t))
  {
    hide Inv, SlotsOk, Exit;
    RejectedKept(s);
    ExitKept(Rejected(s), t);
  }

  /** A goroutine without an attempt may commit `next` for its node and move on as `task`. */
  predicate MayMove(s: Exec, t: TaskId, next: Node, task: Task) {
    && t in s.tasks && s.tasks[t].Alive() && !s.tasks[t].Attempting() && !task.Attempting()
    && s.tasks[t].node in s.nodes
    && LegalCommit(s.nodes[s.tasks[t].node], next) && !next.Terminal() && !next.InAttempt() && !next.state.Pending?
    && s.tasks[t].node in s.book.ledger && AccountOk(next, s.book.ledger[s.tasks[t].node], s.loop.now)
    && task.node == s.tasks[t].node && task.resumer == s.tasks[t].resumer && Fits(next, task) && task.Alive()
  }

  lemma ActiveIsLast(s: Exec, id: Id)
    requires Goroutines(s) && id in s.active
    ensures s.active[id] in s.tasks && s.tasks[s.active[id]].Attempting() && id in s.book.worker && s.book.worker[id] == s.active[id]
  {
    hide CallOk, Fits;
    assert ActiveOk(s, id) && TaskOk(s, s.active[id]);
  }

  /** A live goroutine without an attempt is the last one of its node, which has no attempt. */
  lemma NodeIsIdle(s: Exec, t: TaskId)
    requires Goroutines(s) && t in s.tasks && s.tasks[t].Alive() && !s.tasks[t].Attempting()
    ensures var id := s.tasks[t].node; id in s.book.worker && s.book.worker[id] == t && id !in s.active
  {
    hide CallOk, Fits;
    var id := s.tasks[t].node;
    assert TaskOk(s, t);
    if id in s.active { ActiveIsLast(s, id); }
  }

  /** A goroutine without an attempt commits a live state of its node and moves on. */
  lemma MoveInv(s: Exec, t: TaskId, next: Node, task: Task)
    requires Inv(s) && MayMove(s, t, next, task)
    ensures Inv(Move(s, t, next, task)) && Evolves(s.nodes, Move(s, t, next, task).nodes)
  {
    hide Goroutines, NodesOk, Evolves, Fits, LegalCommit, AccountOk;
    NodeIsIdle(s, t);
    MoveKeepsGoroutines(s, t, next, task);
    WriteKeepsNodes(s, Move(s, t, next, task), s.tasks[t].node, next);
  }

  lemma MoveKept(s: Exec, t: TaskId, next: Node, task: Task)
    requires Inv(s) && MayMove(s, t, next, task)
    ensures Kept(s, Move(s, t, next, task))
  {
    hide NodesOk, Goroutines, Evolves, Fits, LegalCommit, AccountOk, SlotsMatch;
    MoveInv(s, t, next, task);
    var id := s.tasks[t].node;
    if SlotsMatch(s.nodes, s.active, s.tasks) { MoveKeepsSlots(s, t, id, next, task); }
  }

  // ---- Closing a subtree ----------------------------------------------------

  lemma CommitAndCloseNodes(s: Exec, id: Id, next: Node, c: Closing, reason: string)
    requires NodesOk(s) && id in s.nodes && LegalCommit(s.nodes[id], next) && next.Terminal()
    requires AccountOk(next, s.book.ledger[id], s.loop.now) && !s.loop.failed
    requires c.done <= LiveAmong(Wrote(s, id, next).nodes, s.nodes.Keys)
    ensures var s' := Close(Wrote(s, id, next), c, reason); NodesOk(s') && Evolves(s.nodes, s'.nodes)
  {
    var w := Wrote(s, id, next);
    WriteKeepsNodes(s, w, id, next);
    CloseKeepsNodes(w, c, reason);
    CommitAndCloseEvolves(s.nodes, id, next, c.done, reason);
  }

  /** A node takes a terminal state, and its subtree is closed. */
  lemma CommitAndCloseInv(s: Exec, id: Id, next: Node, ok: bool, c: Closing, reason: string)
    requires Inv(s) && id in s.nodes && LegalCommit(s.nodes[id], next) && next.Terminal()
    requires AccountOk(next, s.book.ledger[id], s.loop.now)
    requires ClosesBelow(s, id, next, ok, c)
    ensures var s' := CommitAndClose(s, id, next, ok, c, reason); Inv(s') && Evolves(s.nodes, s'.nodes)
  {
    if !Accepted(s, ok) {
      RejectedKept(s);
    } else {
      CommitAndCloseNodes(s, id, next, c, reason);
      WroteKeepsGoroutines(s, id, next);
      CloseKeepsGoroutines(Wrote(s, id, next), c, reason);
    }
  }

  lemma CommitAndCloseSlots(s: Exec, id: Id, next: Node, ok: bool, c: Closing, reason: string)
    requires s.loop.failed ==> s.loop.ctxDone
    requires !s.loop.ctxDone ==> SlotsMatch(s.nodes[id := next], s.active, s.tasks)
    ensures SlotsOk(CommitAndClose(s, id, next, ok, c, reason))
  {
    if Accepted(s, ok) && !s.loop.ctxDone { CloseKeepsSlots(Wrote(s, id, next), c, reason); }
  }

  lemma CommitAndCloseKept(s: Exec, id: Id, next: Node, ok: bool, c: Closing, reason: string)
    requires Inv(s) && id in s.nodes && LegalCommit(s.nodes[id], next) && next.Terminal()
    requires AccountOk(next, s.book.ledger[id], s.loop.now)
    requires ClosesBelow(s, id, next, ok, c)
    ensures Kept(s, CommitAndClose(s, id, next, ok, c, reason))
  {
    CommitAndCloseInv(s, id, next, ok, c, reason);
    if SlotsOk(s) {
      if !s.loop.ctxDone { NodeKeepsSlots(s.nodes, s.active, s.tasks, id, next); }
      CommitAndCloseSlots(s, id, next, ok, c, reason);
    }
  }

  // ---- The scheduler loop ---------------------------------------------------

  lemma FailedPrerequisiteLegal(n: Node, l: Ledger, now: Time)
    requires n.state.Pending? && AccountOk(n, l, now)
    ensures LegalCommit(n, FailedPrerequisite(n)) && AccountOk(FailedPrerequisite(n), l, now)
  {
  }

  /** A due node takes an account that allows what a scheduling pass does with it. */
  lemma AccountOf(s: Exec, id: Id)
    requires NodesOk(s) && id in s.nodes
    ensures id in s.book.ledger && AccountOk(s.nodes[id], s.book.ledger[id], s.loop.now)
  {
    hide Tree, TimersArmed, WakeOk, AllTerminal, AccountOk;
  }

  /** A pending node has no goroutine that is not over. */
  lemma PendingFits(s: Exec, id: Id, next: Node)
    requires Goroutines(s) && id in s.nodes && s.nodes[id].state.Pending?
    ensures (id in s.book.worker && s.book.worker[id] in s.tasks && s.tasks[s.book.worker[id]].node == id)
              ==> Fits(next, s.tasks[s.book.worker[id]])
  {
    hide ActiveOk, CallOk;
    if id in s.book.worker && s.book.worker[id] in s.tasks { assert TaskOk(s, s.book.worker[id]); }
  }

  lemma FailedIsIdle(n: Node)
    ensures FailedPrerequisite(n).Terminal() && !FailedPrerequisite(n).InAttempt() && !FailedPrerequisite(n).state.Pending?
  {
  }

  lemma FailPendingKept(s: Exec, id: Id, p: Id, ok: bool)
    requires Inv(s) && CanFailPending(s, id, p)
    ensures Kept(s, FailPending(s, id, ok))
  {
    hide Goroutines, NodesOk, Evolves, LegalCommit, AccountOk, Fits, SlotsMatch, Lost, FailedPrerequisite;
    if !Accepted(s, ok) {
      RejectedKept(s);
    } else {
      var next := FailedPrerequisite(s.nodes[id]);
      AccountOf(s, id);
      FailedPrerequisiteLegal(s.nodes[id], s.book.ledger[id], s.loop.now);
      FailedIsIdle(s.nodes[id]);
      WriteKeepsNodes(s, Wrote(s, id, next), id, next);
      PendingFits(s, id, next);
      WroteKeepsGoroutines(s, id, next);
      if SlotsMatch(s.nodes, s.active, s.tasks) { NodeKeepsSlots(s.nodes, s.active, s.tasks, id, next); }
    }
  }

  lemma FailAgainKept(s: Exec, id: Id, ok: bool)
    requires Inv(s) && CanFailAgain(s, id)
    ensures Kept(s, Commit(s, id, s.nodes[id], ok))
  {
    if !Accepted(s, ok) {
      RejectedKept(s);
    } else {
      assert s.nodes[id := s.nodes[id]] == s.nodes;
      WroteKeepsGoroutines(s, id, s.nodes[id]);
    }
  }

  lemma MakeReadyKept(s: Exec, id: Id, t: TaskId, ok: bool)
    requires Inv(s) && CanMakeReady(s, id, t)
    ensures Kept(s, MakeReady(s, id, t, ok))
  {
    hide NodesOk, Goroutines, Evolves, SlotsMatch, AllDone, Due;
    if !Accepted(s, ok) {
      RejectedKept(s);
    } else {
      ReadyKeepsNodes(s, id, t);
      ReadyKeepsGoroutines(s, id, t);
      if SlotsMatch(s.nodes, s.active, s.tasks) { ReadyKeepsSlots(s, id, t); }
    }
  }

  lemma ReadyLegal(s: Exec, id: Id)
    requires NodesOk(s) && id in s.nodes && Due(s.nodes[id], s.loop.now)
    ensures id in s.book.ledger && LegalCommit(s.nodes[id], MadeReady(s.nodes[id]))
    ensures AccountOk(MadeReady(s.nodes[id]), s.book.ledger[id], s.loop.now)
  {
    AccountOf(s, id);
    hide NodesOk;
  }

  lemma ReadyKeepsNodes(s: Exec, id: Id, t: TaskId)
    requires NodesOk(s) && CanMakeReady(s, id, t) && !s.loop.failed
    ensures NodesOk(MakeReady(s, id, t, true)) && Evolves(s.nodes, MakeReady(s, id, t, true).nodes)
  {
    hide LegalCommit, AccountOk, Evolves, Tree, Accounts, TimersArmed, Settled, RootLive, AllTerminal;
    var next := MadeReady(s.nodes[id]);
    ReadyLegal(s, id);
    WriteKeepsNodes(s, Wrote(s, id, next), id, next);
  }

  lemma ReadyKeepsGoroutines(s: Exec, id: Id, t: TaskId)
    requires Goroutines(s) && CanMakeReady(s, id, t) && !s.loop.failed
    ensures Goroutines(MakeReady(s, id, t, true))
  {
    var s' := MakeReady(s, id, t, true);
    forall u | u in s'.tasks ensures TaskOk(s', u) {
      if u != t { assert TaskOk(s, u); }
    }
    forall x | x in s'.active ensures ActiveOk(s', x) {
      assert ActiveOk(s, x);
    }
    forall k | k in s'.calls ensures CallOk(s', k) {
      assert CallOk(s, k);
    }
  }

  lemma ReadyKeepsSlots(s: Exec, id: Id, t: TaskId)
    requires Goroutines(s) && CanMakeReady(s, id, t) && SlotsMatch(s.nodes, s.active, s.tasks)
    ensures SlotsMatch(s.nodes[id := MadeReady(s.nodes[id])], s.active, s.tasks[t := NewTask(id)])
  {
    forall x | x in s.active ensures s.active[x] != t {
      assert ActiveOk(s, x);
    }
  }

  lemma ReturnByRootKept(s: Exec, c: Closing)
    requires Inv(s) && CanReturnByRoot(s) && ClosingPossible(s, s.nodes.Keys, c)
    ensures Kept(s, ReturnedWith(s, c))
    ensures c.Ok() ==> forall id :: id in ReturnedWith(s, c).nodes ==> ReturnedWith(s, c).nodes[id].Terminal()
  {
    var w := Close(s, c, "root action completed");
    CloseAllKept(s, c, "root action completed");
    if c.Ok() { CloseAllTerminates(s, c, "root action completed"); }
    EndContextKept(w, ReturnedWith(s, c));
  }

  /** The run's context ends; the loop may return with it. */
  lemma EndContextKept(s: Exec, s': Exec)
    requires Inv(s) && s' == s.(loop := s.loop.(ctxDone := true, scheduler := s'.loop.scheduler))
    requires s'.loop.scheduler.ReturnedByRoot? ==> AllTerminal(s.nodes)
    ensures Inv(s') && s'.nodes == s.nodes && SlotsOk(s')
  {
    OutsideKeepsGoroutines(s, s');
  }

  /** The clock, the contexts, the timers and the loop are not part of the goroutines' state. */
  lemma OutsideKeepsGoroutines(s: Exec, s': Exec)
    requires Goroutines(s)
    requires s'.nodes == s.nodes && s'.tasks == s.tasks && s'.active == s.active && s'.calls == s.calls
    requires s'.book.worker == s.book.worker
    ensures Goroutines(s')
  {
    forall t | t in s'.tasks ensures TaskOk(s', t) {
      assert TaskOk(s, t);
    }
    forall id | id in s'.active ensures ActiveOk(s', id) {
      assert ActiveOk(s, id);
    }
    forall k | k in s'.calls ensures CallOk(s', k) {
      assert CallOk(s, k);
    }
  }

  lemma CloseAllKept(s: Exec, c: Closing, reason: string)
    requires Inv(s) && ClosingPossible(s, s.nodes.Keys, c)
    ensures Kept(s, Close(s, c, reason))
  {
    CloseKeepsNodes(s, c, reason);
    CloseKeepsGoroutines(s, c, reason);
    if c.Ok() { CloseAllTerminates(s, c, reason); }
    if SlotsMatch(s.nodes, s.active, s.tasks) { CloseKeepsSlots(s, c, reason); }
  }

  // ---- execute --------------------------------------------------------------

  lemma ToImageMoves(s: Exec, t: TaskId)
    requires Inv(s) && (At(s, t, Spawned) || At(s, t, LookingUp)) && s.nodes[s.tasks[t].node].state.Ready?
    ensures MayMove(s, t, WaitingForImage(s.nodes[s.tasks[t].node]), s.tasks[t].(phase := Ensuring))
  {
    hide Inv;
    OwnGoroutine(s, t);
    WaitingForImageLegal(s.nodes[s.tasks[t].node], s.tasks[t], s.book.ledger[s.tasks[t].node], s.loop.now);
    hide LegalCommit, AccountOk, Fits;
  }

  lemma WaitingForImageLegal(n: Node, task: Task, l: Ledger, now: Time)
    requires n.state.Ready? && AccountOk(n, l, now) && Fits(n, task) && (task.phase.Spawned? || task.phase.LookingUp?)
    ensures LegalCommit(n, WaitingForImage(n)) && AccountOk(WaitingForImage(n), l, now)
    ensures Fits(WaitingForImage(n), task.(phase := Ensuring))
  {
  }

  lemma ToImageKept(s: Exec, t: TaskId)
    requires Inv(s) && (At(s, t, Spawned) || At(s, t, LookingUp)) && s.nodes[s.tasks[t].node].state.Ready?
    ensures Kept(s, Move(s, t, WaitingForImage(s.nodes[s.tasks[t].node]), s.tasks[t].(phase := Ensuring)))
  {
    ToImageMoves(s, t);
    hide Inv, Kept, MayMove;
    MoveKept(s, t, WaitingForImage(s.nodes[s.tasks[t].node]), s.tasks[t].(phase := Ensuring));
  }

  lemma ImageOrAcquireKept(s: Exec, t: TaskId, ok: bool)
    requires Inv(s) && (At(s, t, Spawned) || At(s, t, LookingUp)) && s.nodes[s.tasks[t].node].state.Ready?
    ensures Kept(s, ImageOrAcquire(s, t, ok))
  {
    hide Inv, Kept;
    OwnGoroutine(s, t);
    var n := s.nodes[s.tasks[t].node];
    if n.spec.imageKey == [] {
      SetTaskKept(s, t, s.tasks[t].(phase := Acquiring));
    } else if Accepted(s, ok) {
      ToImageKept(s, t);
    } else {
      RejectAndExitKept(s, t);
    }
  }

  lemma BeginKept(s: Exec, t: TaskId, ok: bool)
    requires Inv(s) && At(s, t, Spawned)
    ensures Kept(s, Begin(s, t, ok))
  {
    hide Inv, Kept, ImageOrAcquire, Exit;
    OwnGoroutine(s, t);
    var n := s.nodes[s.tasks[t].node];
    if !n.state.Ready? || s.loop.ctxDone {
      ExitKept(s, t);
    } else if n.spec.cacheKey != [] {
      SetTaskKept(s, t, s.tasks[t].(phase := LookingUp));
    } else {
      ImageOrAcquireKept(s, t, ok);
    }
  }

  /** A goroutine exits and its node takes a terminal state. */
  lemma ExitAndCloseKept(s: Exec, t: TaskId, next: Node, ok: bool, c: Closing, reason: string)
    requires Inv(s) && t in s.tasks && !s.tasks[t].Attempting() && s.tasks[t].node in s.nodes
    requires LegalCommit(s.nodes[s.tasks[t].node], next) && next.Terminal()
    requires AccountOk(next, s.book.ledger[s.tasks[t].node], s.loop.now)
    requires ClosesBelow(s, s.tasks[t].node, next, ok, c)
    ensures Kept(s, CommitAndClose(Exit(s, t), s.tasks[t].node, next, ok, c, reason))
  {
    ExitKept(s, t);
    CommitAndCloseKept(Exit(s, t), s.tasks[t].node, next, ok, c, reason);
  }

  lemma HitNodeLegal(n: Node, found: Lookup, l: Ledger, now: Time)
    requires found.Hit? && !n.Terminal() && AccountOk(n, l, now) && n.Idle()
    ensures LegalCommit(n, HitNode(n, found)) && HitNode(n, found).Terminal() && AccountOk(HitNode(n, found), l, now)
  {
  }

  lemma LookupReturnsKept(s: Exec, t: TaskId, found: Lookup, ok: bool, c: Closing)
    requires Inv(s) && At(s, t, LookingUp)
    requires found.Hit? && !Abandons(s, t) ==> ClosesBelow(s, s.tasks[t].node, HitNode(s.nodes[s.tasks[t].node], found), ok, c)
    ensures Kept(s, LookupReturns(s, t, found, ok, c))
  {
    hide Inv, Kept, ImageOrAcquire, Exit, CommitAndClose, ClosesBelow, LegalCommit, HitNode;
    OwnGoroutine(s, t);
    var n := s.nodes[s.tasks[t].node];
    if n.Terminal() || s.loop.ctxDone {
      ExitKept(s, t);
    } else if found.Miss? {
      ImageOrAcquireKept(s, t, ok);
    } else {
      HitNodeLegal(n, found, s.book.ledger[s.tasks[t].node], s.loop.now);
      ExitAndCloseKept(s, t, HitNode(n, found), ok, c, "parent action completed");
    }
  }

  lemma FromImageLegal(n: Node, task: Task, l: Ledger, now: Time)
    requires !n.Terminal() && AccountOk(n, l, now) && Fits(n, task) && task.phase.Ensuring?
    ensures LegalCommit(n, MadeReady(n)) && AccountOk(MadeReady(n), l, now) && Fits(MadeReady(n), task.(phase := Acquiring))
  {
  }

  lemma FromImageMoves(s: Exec, t: TaskId)
    requires Inv(s) && At(s, t, Ensuring) && !s.nodes[s.tasks[t].node].Terminal()
    ensures MayMove(s, t, MadeReady(s.nodes[s.tasks[t].node]), s.tasks[t].(phase := Acquiring))
  {
    hide Inv;
    OwnGoroutine(s, t);
    FromImageLegal(s.nodes[s.tasks[t].node], s.tasks[t], s.book.ledger[s.tasks[t].node], s.loop.now);
    hide LegalCommit, AccountOk, Fits;
  }

  lemma FromImageKept(s: Exec, t: TaskId)
    requires Inv(s) && At(s, t, Ensuring) && !s.nodes[s.tasks[t].node].Terminal()
    ensures Kept(s, Move(s, t, MadeReady(s.nodes[s.tasks[t].node]), s.tasks[t].(phase := Acquiring)))
  {
    FromImageMoves(s, t);
    hide Inv, Kept, MayMove;
    MoveKept(s, t, MadeReady(s.nodes[s.tasks[t].node]), s.tasks[t].(phase := Acquiring));
  }

  lemma ImageFailedLegal(n: Node, message: string, l: Ledger, now: Time)
    requires !n.Terminal() && AccountOk(n, l, now) && n.Idle()
    ensures LegalCommit(n, ImageFailed(n, message)) && ImageFailed(n, message).Terminal() && AccountOk(ImageFailed(n, message), l, now)
  {
  }

  lemma ImageReturnsKept(s: Exec, t: TaskId, failure: Option<string>, ok: bool, c: Closing)
    requires Inv(s) && At(s, t, Ensuring)
    requires failure.Some? && !Abandons(s, t) ==>
               ClosesBelow(s, s.tasks[t].node, ImageFailed(s.nodes[s.tasks[t].node], failure.value), ok, c)
    ensures Kept(s, ImageReturns(s, t, failure, ok, c))
  {
    hide Inv, Kept, Exit, Move, CommitAndClose, ClosesBelow, LegalCommit, ImageFailed;
    OwnGoroutine(s, t);
    var n := s.nodes[s.tasks[t].node];
    if n.Terminal() || s.loop.ctxDone {
      ExitKept(s, t);
    } else if failure.Some? {
      ImageFailedLegal(n, failure.value, s.book.ledger[s.tasks[t].node], s.loop.now);
      ExitAndCloseKept(s, t, ImageFailed(n, failure.value), ok, c, "parent action failed");
    } else if Accepted(s, ok) {
      FromImageKept(s, t);
    } else {
      RejectAndExitKept(s, t);
    }
  }

  lemma AcquireSlotKept(s: Exec, t: TaskId)
    requires Inv(s) && At(s, t, Acquiring)
    ensures Kept(s, AcquireSlot(s, t))
  {
    hide Inv, Kept;
    OwnGoroutine(s, t);
    SetTaskKept(s, t, s.tasks[t].(phase := Acquired, held := true));
  }

  lemma RunnerReturnsKept(s: Exec, t: TaskId, output: Bytes, failure: Option<Failure>)
    requires Inv(s) && At(s, t, InRunner)
    ensures Kept(s, RunnerReturns(s, t, output, failure))
  {
    hide Inv, Kept;
    OwnGoroutine(s, t);
    SetTaskKept(s, t, s.tasks[t].(phase := Returned, output := output, failure := failure));
  }

  lemma ChargedKeepsAccounts(nodes: Nodes, ledger: map<Id, Ledger>, now: Time, id: Id)
    requires Accounts(nodes, ledger, now) && id in nodes && nodes[id].state.Ready?
    ensures Accounts(nodes[id := StartedNode(nodes[id])], Charged(ledger, id), now)
  {
  }

  lemma LaunchedKeepsNodes(s: Exec, t: TaskId)
    requires NodesOk(s) && At(s, t, Acquired) && s.nodes[s.tasks[t].node].state.Ready?
    ensures NodesOk(Launched(s, t)) && Evolves(s.nodes, Launched(s, t).nodes)
  {
    hide Accounts, Charged, Tree, TimersArmed;
    var id := s.tasks[t].node;
    EvolvesKeeps(s.nodes, s.nodes[id := StartedNode(s.nodes[id])], s.book.root, s.loop.timers, s.loop.now);
    ChargedKeepsAccounts(s.nodes, s.book.ledger, s.loop.now, id);
  }

  lemma LaunchedKeepsGoroutines(s: Exec, t: TaskId)
    requires Goroutines(s) && At(s, t, Acquired) && s.nodes[s.tasks[t].node].state.Ready?
    ensures Goroutines(Launched(s, t))
  {
    var s' := Launched(s, t);
    assert TaskOk(s, t);
    forall u | u in s'.tasks ensures TaskOk(s', u) {
      assert TaskOk(s, u);
    }
    forall x | x in s'.active ensures ActiveOk(s', x) {
      if x != s.tasks[t].node { assert ActiveOk(s, x); }
    }
    forall k | k in s'.calls ensures CallOk(s', k) {
      assert CallOk(s, k);
    }
  }

  lemma LaunchedKeepsSlots(s: Exec, t: TaskId)
    requires Goroutines(s) && At(s, t, Acquired) && SlotsMatch(s.nodes, s.active, s.tasks)
    ensures var s' := Launched(s, t); SlotsMatch(s'.nodes, s'.active, s'.tasks)
  {
    assert TaskOk(s, t);
    forall x | x in s.active && s.active[x] == t ensures x == s.tasks[t].node {
      assert ActiveOk(s, x);
    }
  }

  lemma LaunchedInv(s: Exec, t: TaskId)
    requires Inv(s) && At(s, t, Acquired) && s.nodes[s.tasks[t].node].state.Ready?
    ensures Inv(Launched(s, t)) && Evolves(s.nodes, Launched(s, t).nodes)
  {
    LaunchedKeepsNodes(s, t);
    LaunchedKeepsGoroutines(s, t);
  }

  lemma LaunchedKept(s: Exec, t: TaskId)
    requires Inv(s) && At(s, t, Acquired) && s.nodes[s.tasks[t].node].state.Ready?
    ensures Kept(s, Launched(s, t))
  {
    hide NodesOk, Goroutines, Evolves, Fits, SlotsMatch;
    LaunchedInv(s, t);
    if SlotsMatch(s.nodes, s.active, s.tasks) { LaunchedKeepsSlots(s, t); }
  }

  lemma StartAttemptKept(s: Exec, t: TaskId, ok: bool)
    requires Inv(s) && At(s, t, Acquired)
    ensures Kept(s, StartAttempt(s, t, ok))
  {
    if !s.nodes[s.tasks[t].node].state.Ready? || s.loop.ctxDone {
      ExitKept(s, t);
    } else if !Accepted(s, ok) {
      RejectAndExitKept(s, t);
    } else {
      LaunchedKept(s, t);
    }
  }

  lemma LeaveKeepsGoroutines(s: Exec, t: TaskId)
    requires Goroutines(s) && At(s, t, Returned) && s.tasks[t].resumer.None?
    ensures Goroutines(Leave(s, t))
  {
    var s' := Leave(s, t);
    assert TaskOk(s, t);
    forall u | u in s'.tasks ensures TaskOk(s', u) {
      assert TaskOk(s, u);
    }
    forall x | x in s'.active ensures ActiveOk(s', x) {
      assert ActiveOk(s, x);
    }
    forall k | k in s'.calls ensures CallOk(s', k) {
      assert CallOk(s, k);
    }
  }

  /** Leaving keeps everything except the slot of the node left behind. */
  lemma LeaveKept(s: Exec, t: TaskId)
    requires Inv(s) && At(s, t, Returned) && s.tasks[t].resumer.None?
    ensures Inv(Leave(s, t))
  {
    LeaveKeepsGoroutines(s, t);
  }

  lemma LeaveKeepsSlots(s: Exec, t: TaskId, next: Node)
    requires Goroutines(s) && At(s, t, Returned) && SlotsMatch(s.nodes, s.active, s.tasks)
    requires !next.InAttempt()
    ensures var s' := Leave(s, t); SlotsMatch(s.nodes[s.tasks[t].node := next], s'.active, s'.tasks)
  {
    assert TaskOk(s, t);
    forall x | x in s.active && s.active[x] == t ensures x == s.tasks[t].node {
      assert ActiveOk(s, x);
    }
  }

  lemma OutcomeLegal(n: Node, output: Bytes, failure: Option<Failure>, l: Ledger, now: Time)
    requires n.InAttempt() && AccountOk(n, l, now)
    ensures var next := Outcome(n, output, failure, now);
            && LegalCommit(n, next) && !next.InAttempt()
            && (next.Terminal() || next.state.Pending?)
            && (next.Terminal() ==> AccountOk(next, l, now))
            && (next.state.Pending? ==> AccountOk(next, l.(notBefore := next.nextAttemptAt), now))
  {
  }

  lemma RetryKeepsNodes(s: Exec, id: Id, next: Node)
    requires NodesOk(s) && id in s.nodes && LegalCommit(s.nodes[id], next) && next.state.Pending?
    requires AccountOk(next, s.book.ledger[id].(notBefore := next.nextAttemptAt), s.loop.now)
    ensures NodesOk(Retry(s, id, next)) && Evolves(s.nodes, Retry(s, id, next).nodes)
  {
    var after := s.nodes[id := next];
    assert SameLinks(s.nodes, after) && Evolves(s.nodes, after);
    hide Tree, Accounts, Postponed, AccountOk, LegalCommit, TimersArmed, Settled, RootLive, Evolves;
    SameLinksSameTree(s.nodes, after, s.book.root);
    PostponedKeepsAccounts(s.nodes, s.book.ledger, s.loop.now, id, next);
    if !s.loop.ctxDone { ArmedKeepsTimers(s.nodes, s.loop.timers, s.loop.now, id, next); }
  }

  lemma PostponedKeepsAccounts(nodes: Nodes, ledger: map<Id, Ledger>, now: Time, id: Id, next: Node)
    requires Accounts(nodes, ledger, now) && id in nodes
    requires AccountOk(next, ledger[id].(notBefore := next.nextAttemptAt), now)
    ensures Accounts(nodes[id := next], Postponed(ledger, id, next.nextAttemptAt), now)
  {
  }

  lemma ArmedKeepsTimers(nodes: Nodes, timers: set<Timer>, now: Time, id: Id, next: Node)
    requires TimersArmed(nodes, timers, now)
    ensures TimersArmed(nodes[id := next], timers + {Timer(id, next.attempt, next.nextAttemptAt)}, now)
  {
    var after := nodes[id := next];
    forall x | x in after && after[x].state.Pending?
      ensures after[x].nextAttemptAt <= now || TimerFor(after, x) in timers + {Timer(id, next.attempt, next.nextAttemptAt)}
    {
      if x != id { assert TimerFor(nodes, x) == TimerFor(after, x); }
    }
  }

  /** The node of an exited goroutine goes back to pending. */
  lemma RetryKeepsGoroutines(s: Exec, t: TaskId, next: Node)
    requires Goroutines(s) && t in s.tasks && s.tasks[t].node in s.nodes && !s.tasks[t].Alive()
    requires s.tasks[t].node in s.book.worker && s.book.worker[s.tasks[t].node] == t && next.state.Pending?
    ensures Goroutines(Retry(s, s.tasks[t].node, next))
  {
    var s' := Retry(s, s.tasks[t].node, next);
    forall u | u in s'.tasks ensures TaskOk(s', u) {
      assert TaskOk(s, u);
    }
    forall x | x in s'.active ensures ActiveOk(s', x) {
      assert ActiveOk(s, x);
    }
    forall k | k in s'.calls ensures CallOk(s', k) {
      assert CallOk(s, k);
    }
  }

  lemma RetriedInv(s: Exec, t: TaskId)
    requires Inv(s) && At(s, t, Returned) && s.tasks[t].resumer.None?
    requires AttemptStands(s, t) && OutcomeOf(s, t).state.Pending?
    ensures var s' := Retry(Leave(s, t), s.tasks[t].node, OutcomeOf(s, t)); Inv(s') && Evolves(s.nodes, s'.nodes)
  {
    var id := s.tasks[t].node;
    var left := Leave(s, t);
    var next := OutcomeOf(s, t);
    assert TaskOk(s, t);
    LeaveKept(s, t);
    OutcomeLegal(s.nodes[id], s.tasks[t].output, s.tasks[t].failure, s.book.ledger[id], s.loop.now);
    RetryKeepsNodes(left, id, next);
    RetryKeepsGoroutines(left, t, next);
  }

  lemma FinishInv(s: Exec, t: TaskId, ok: bool, c: Closing)
    requires Inv(s) && At(s, t, Returned) && s.tasks[t].resumer.None?
    requires AttemptStands(s, t) && !OutcomeOf(s, t).state.Pending? ==> ClosesBelow(s, s.tasks[t].node, OutcomeOf(s, t), ok, c)
    ensures Inv(Finish(s, t, ok, c)) && Evolves(s.nodes, Finish(s, t, ok, c).nodes)
  {
    LeaveKept(s, t);
    if AttemptStands(s, t) {
      if !OutcomeOf(s, t).state.Pending? {
        assert TaskOk(s, t);
        var id := s.tasks[t].node;
        OutcomeLegal(s.nodes[id], s.tasks[t].output, s.tasks[t].failure, s.book.ledger[id], s.loop.now);
        CommitAndCloseInv(Leave(s, t), id, OutcomeOf(s, t), ok, c, "parent action completed");
      } else if Accepted(s, ok) {
        RetriedInv(s, t);
      } else {
        RejectedKept(Leave(s, t));
      }
    }
  }

  lemma OutcomeSlots(s: Exec, t: TaskId, ok: bool, c: Closing)
    requires Goroutines(s) && At(s, t, Returned) && AttemptStands(s, t) && SlotsMatch(s.nodes, s.active, s.tasks)
    requires s.loop.failed ==> s.loop.ctxDone
    ensures SlotsOk(Finish(s, t, ok, c))
  {
    LeaveKeepsSlots(s, t, OutcomeOf(s, t));
    if !OutcomeOf(s, t).state.Pending? {
      CommitAndCloseSlots(Leave(s, t), s.tasks[t].node, OutcomeOf(s, t), ok, c, "parent action completed");
    }
  }

  lemma LateSlots(s: Exec, t: TaskId)
    requires Goroutines(s) && At(s, t, Returned) && SlotsMatch(s.nodes, s.active, s.tasks)
    requires s.nodes[s.tasks[t].node].Terminal()
    ensures SlotsOk(Leave(s, t))
  {
    LeaveKeepsSlots(s, t, s.nodes[s.tasks[t].node]);
    assert s.nodes[s.tasks[t].node := s.nodes[s.tasks[t].node]] == s.nodes;
  }

  lemma FinishSlots(s: Exec, t: TaskId, ok: bool, c: Closing)
    requires Goroutines(s) && At(s, t, Returned) && SlotsOk(s) && NodesOk(s)
    ensures SlotsOk(Finish(s, t, ok, c))
  {
    if !s.loop.ctxDone {
      assert TaskOk(s, t);
      hide Goroutines, SlotsMatch, OutcomeOf, CommitAndClose;
      if s.nodes[s.tasks[t].node].Terminal() { LateSlots(s, t); } else { OutcomeSlots(s, t, ok, c); }
    }
  }

  lemma FinishKeys(s: Exec, t: TaskId, ok: bool, c: Closing)
    requires At(s, t, Returned)
    ensures Finish(s, t, ok, c).nodes.Keys == s.nodes.Keys
  {
  }

  lemma FinishKept(s: Exec, t: TaskId, ok: bool, c: Closing)
    requires Inv(s) && At(s, t, Returned) && s.tasks[t].resumer.None?
    requires AttemptStands(s, t) && !OutcomeOf(s, t).state.Pending? ==> ClosesBelow(s, s.tasks[t].node, OutcomeOf(s, t), ok, c)
    ensures Kept(s, Finish(s, t, ok, c))
  {
    FinishKeys(s, t, ok, c);
    hide NodesOk, Goroutines, Evolves, SlotsOk, ClosesBelow, Finish;
    FinishInv(s, t, ok, c);
    if SlotsOk(s) { FinishSlots(s, t, ok, c); }
  }

  // ---- Add, Wait, resume ----------------------------------------------------

  lemma AddKeepsNodes(s: Exec, parent: Id, id: Id, node: Node)
    requires NodesOk(s) && id !in s.nodes && parent in s.nodes
    requires !s.nodes[parent].Terminal()
    ensures NodesOk(Add(s, parent, id, node))
  {
    hide LegalCommit, AccountOk, Settled, TimersArmed, Accounts;
    var child := node.(spec := node.spec.(parent := Some(parent)));
    LeafKeepsTree(s.nodes, s.book.root, id, child);
    AddKeepsAccounts(s.nodes, s.book.ledger, s.loop.now, id, child);
    if !s.loop.ctxDone { AddKeepsTimers(s.nodes, s.loop.timers, s.loop.now, id, child); }
  }

  lemma AddKeepsAccounts(nodes: Nodes, ledger: map<Id, Ledger>, now: Time, id: Id, child: Node)
    requires Accounts(nodes, ledger, now) && id !in nodes
    ensures Accounts(nodes[id := child], ledger[id := NewLedger(child)], now)
  {
  }

  lemma AddKeepsTimers(nodes: Nodes, timers: set<Timer>, now: Time, id: Id, child: Node)
    requires TimersArmed(nodes, timers, now)
    ensures TimersArmed(nodes[id := child],
                        if child.state.Pending? && now < child.nextAttemptAt
                        then timers + {Timer(id, child.attempt, child.nextAttemptAt)} else timers, now)
  {
    ArmedKeepsTimers(nodes, timers, now, id, child);
    var after := nodes[id := child];
    if !(child.state.Pending? && now < child.nextAttemptAt) {
      forall x | x in after && after[x].state.Pending? ensures after[x].nextAttemptAt <= now || TimerFor(after, x) in timers {
        if x != id { assert TimerFor(nodes, x) == TimerFor(after, x); }
      }
    }
  }

  lemma AddKeepsGoroutines(s: Exec, parent: Id, id: Id, node: Node)
    requires Goroutines(s) && id !in s.nodes
    ensures Goroutines(Add(s, parent, id, node))
  {
    var s' := Add(s, parent, id, node);
    forall u | u in s'.tasks ensures TaskOk(s', u) {
      assert TaskOk(s, u);
    }
    forall x | x in s'.active ensures ActiveOk(s', x) {
      assert ActiveOk(s, x);
    }
    forall k | k in s'.calls ensures CallOk(s', k) {
      assert CallOk(s, k);
    }
  }

  lemma AddNodesInv(s: Exec, parent: Id, attempt: int, id: Id, node: Node)
    requires NodesOk(s) && Goroutines(s) && CanAdd(s, parent, attempt, id)
    ensures NodesOk(Add(s, parent, id, node))
  {
    hide NodesOk, Goroutines, Add;
    AddKeepsNodes(s, parent, id, node);
  }

  lemma AddInv(s: Exec, parent: Id, attempt: int, id: Id, node: Node)
    requires Inv(s) && CanAdd(s, parent, attempt, id)
    ensures Inv(Add(s, parent, id, node)) && Evolves(s.nodes, Add(s, parent, id, node).nodes)
  {
    hide NodesOk, Goroutines, LegalCommit, ParentActive;
    AddNodesInv(s, parent, attempt, id, node);
    AddKeepsGoroutines(s, parent, id, node);
  }

  lemma AddKeepsSlots(s: Exec, parent: Id, id: Id, node: Node)
    requires SlotsOk(s) && id !in s.nodes && node.Restored()
    ensures SlotsOk(Add(s, parent, id, node))
  {
  }

  /** A call step leaves the nodes alone and changes an attempt's slot only at a hand-over. */
  lemma CallStepKept(s: Exec, s': Exec)
    requires Inv(s) && Goroutines(s')
    requires s' == s.(tasks := s'.tasks, calls := s'.calls) || s' == Woken(s).(tasks := s'.tasks, calls := s'.calls)
    requires forall t :: t in s.tasks ==> t in s'.tasks && s'.tasks[t].held == s.tasks[t].held
    ensures Kept(s, s')
  {
    hide Tree, Accounts, TimersArmed, Settled, RootLive, LegalCommit, Fits;
  }

  lemma CountingKeepsGoroutines(s: Exec, k: CallId, parent: Id, attempt: int, child: Id)
    requires Goroutines(s) && parent in s.active && k !in s.calls
    ensures Goroutines(Counting(s, k, parent, attempt, child))
  {
    assert ActiveOk(s, parent);
    var s' := Counting(s, k, parent, attempt, child);
    forall u | u in s'.tasks ensures TaskOk(s', u) {
      assert TaskOk(s, u);
    }
    forall x | x in s'.active ensures ActiveOk(s', x) {
      assert ActiveOk(s, x);
    }
    forall j | j in s'.calls ensures CallOk(s', j) {
      if j != k { assert CallOk(s, j); }
    }
  }

  lemma CountingKeepsSlots(s: Exec, k: CallId, parent: Id, attempt: int, child: Id)
    requires Goroutines(s) && parent in s.active && parent in s.nodes && SlotsMatch(s.nodes, s.active, s.tasks)
    ensures var s' := Counting(Wrote(s, parent, WaitingForChildren(s.nodes[parent])), k, parent, attempt, child);
            SlotsMatch(s'.nodes, s'.active, s'.tasks)
  {
    assert ActiveOk(s, parent);
    forall x | x in s.active && s.active[x] == s.active[parent] ensures x == parent {
      assert ActiveOk(s, x);
    }
  }

  lemma HandOverGoroutines(s: Exec, k: CallId, parent: Id, attempt: int, child: Id)
    requires Goroutines(s) && CanWait(s, k, parent, attempt, child)
    ensures Goroutines(Counting(Wrote(s, parent, WaitingForChildren(s.nodes[parent])), k, parent, attempt, child))
  {
    var next := WaitingForChildren(s.nodes[parent]);
    assert ActiveOk(s, parent);
    assert TaskOk(s, s.active[parent]);
    WroteKeepsGoroutines(s, parent, next);
    CountingKeepsGoroutines(Wrote(s, parent, next), k, parent, attempt, child);
  }

  /** An attempt moves between running and waiting for children. */
  lemma PauseKeepsNodes(s: Exec, s': Exec, id: Id, next: Node)
    requires NodesOk(s) && id in s.nodes && s.nodes[id].InAttempt()
    requires next == WaitingForChildren(s.nodes[id]) || next == Resuming(s.nodes[id])
    requires s' == Wrote(s, id, next).(tasks := s'.tasks, calls := s'.calls)
    ensures NodesOk(s') && Evolves(s.nodes, s'.nodes)
  {
    hide Tree, TimersArmed, Settled, RootLive;
    WriteKeepsNodes(s, s', id, next);
  }

  lemma HandOverInv(s: Exec, k: CallId, parent: Id, attempt: int, child: Id)
    requires Inv(s) && CanWait(s, k, parent, attempt, child)
    ensures var s' := Counting(Wrote(s, parent, WaitingForChildren(s.nodes[parent])), k, parent, attempt, child);
            Inv(s') && Evolves(s.nodes, s'.nodes)
  {
    var next := WaitingForChildren(s.nodes[parent]);
    assert ActiveOk(s, parent);
    assert TaskOk(s, s.active[parent]);
    HandOverGoroutines(s, k, parent, attempt, child);
    PauseKeepsNodes(s, Counting(Wrote(s, parent, next), k, parent, attempt, child), parent, next);
  }

  /** The parent gives its slot back and waits for its children. */
  lemma HandOverKept(s: Exec, k: CallId, parent: Id, attempt: int, child: Id)
    requires Inv(s) && CanWait(s, k, parent, attempt, child)
    ensures Kept(s, Counting(Wrote(s, parent, WaitingForChildren(s.nodes[parent])), k, parent, attempt, child))
  {
    HandOverInv(s, k, parent, attempt, child);
    if SlotsMatch(s.nodes, s.active, s.tasks) { CountingKeepsSlots(s, k, parent, attempt, child); }
  }

  function ResumingAtOnce(s: Exec, k: CallId, parent: Id, attempt: int, child: Id): Exec
    requires parent in s.active
  {
    s.(calls := s.calls[k := Call(parent, attempt, s.active[parent], child, NeedMutex)])
  }

  lemma ResumeAtOnceGoroutines(s: Exec, k: CallId, parent: Id, attempt: int, child: Id)
    requires Goroutines(s) && CanWait(s, k, parent, attempt, child)
    ensures Goroutines(ResumingAtOnce(s, k, parent, attempt, child))
  {
    assert ActiveOk(s, parent);
    var s' := ResumingAtOnce(s, k, parent, attempt, child);
    forall u | u in s'.tasks ensures TaskOk(s', u) {
      assert TaskOk(s, u);
    }
    forall x | x in s'.active ensures ActiveOk(s', x) {
      assert ActiveOk(s, x);
    }
    forall j | j in s'.calls ensures CallOk(s', j) {
      if j != k { assert CallOk(s, j); }
    }
  }

  lemma ResumeAtOnceKept(s: Exec, k: CallId, parent: Id, attempt: int, child: Id)
    requires Inv(s) && CanWait(s, k, parent, attempt, child)
    ensures Kept(s, s.(calls := s.calls[k := Call(parent, attempt, s.active[parent], child, NeedMutex)]))
  {
    hide NodesOk, Goroutines, SlotsOk, Evolves, Kept;
    ResumeAtOnceGoroutines(s, k, parent, attempt, child);
    CallStepKept(s, ResumingAtOnce(s, k, parent, attempt, child));
  }

  lemma CountKept(s: Exec, k: CallId, parent: Id, attempt: int, child: Id)
    requires Inv(s) && CanWait(s, k, parent, attempt, child) && !s.tasks[s.active[parent]].held
    ensures Kept(s, Counting(s, k, parent, attempt, child))
  {
    hide NodesOk, Goroutines, SlotsOk, Evolves, Kept;
    CountingKeepsGoroutines(s, k, parent, attempt, child);
    CallStepKept(s, Counting(s, k, parent, attempt, child));
  }

  lemma WaitBeginsKept(s: Exec, k: CallId, parent: Id, attempt: int, child: Id, ok: bool)
    requires Inv(s) && CanWait(s, k, parent, attempt, child)
    ensures Kept(s, WaitBegins(s, k, parent, attempt, child, ok))
  {
    if s.nodes[child].Terminal() {
      ResumeAtOnceKept(s, k, parent, attempt, child);
    } else if !s.tasks[s.active[parent]].held {
      CountKept(s, k, parent, attempt, child);
    } else if Accepted(s, ok) {
      HandOverKept(s, k, parent, attempt, child);
    } else {
      RejectedKept(s);
    }
  }

  lemma UnblockKeepsGoroutines(s: Exec, k: CallId)
    requires Goroutines(s) && CallAt(s, k, Counted)
    ensures Goroutines(Unblock(s, k))
  {
    var s' := Unblock(s, k);
    forall u | u in s'.tasks ensures TaskOk(s', u) {
      assert TaskOk(s, u);
    }
    forall x | x in s'.active ensures ActiveOk(s', x) {
      assert ActiveOk(s, x);
    }
    forall j | j in s'.calls ensures CallOk(s', j) {
      assert CallOk(s, j);
    }
  }

  lemma UnblockKept(s: Exec, k: CallId)
    requires Inv(s) && CallAt(s, k, Counted)
    ensures Kept(s, Unblock(s, k))
  {
    hide NodesOk, Goroutines, SlotsOk, Evolves, Kept;
    UnblockKeepsGoroutines(s, k);
    CallStepKept(s, Unblock(s, k));
  }

  lemma TakeMutexKeepsGoroutines(s: Exec, k: CallId)
    requires Goroutines(s) && CallAt(s, k, NeedMutex) && s.tasks[s.calls[k].task].resumer.None?
    ensures Goroutines(TakeMutex(s, k))
  {
    var s' := TakeMutex(s, k);
    forall u | u in s'.tasks ensures TaskOk(s', u) {
      assert TaskOk(s, u);
    }
    forall x | x in s'.active ensures ActiveOk(s', x) {
      assert ActiveOk(s, x);
    }
    forall j | j in s'.calls ensures CallOk(s', j) {
      assert CallOk(s, j);
    }
  }

  lemma TakeMutexKept(s: Exec, k: CallId)
    requires Inv(s) && CallAt(s, k, NeedMutex) && s.tasks[s.calls[k].task].resumer.None?
    ensures Kept(s, TakeMutex(s, k))
  {
    hide NodesOk, Goroutines, SlotsOk, Evolves, Kept;
    TakeMutexKeepsGoroutines(s, k);
    CallStepKept(s, TakeMutex(s, k));
  }

  lemma SetPhaseKeepsGoroutines(s: Exec, k: CallId, phase: CallPhase)
    requires Goroutines(s) && k in s.calls && s.calls[k].OwnsMutex() && s.calls[k].task in s.tasks
    requires phase.Rechecking? || phase.GotSlot? || phase.Reacquiring?
    requires phase.Reacquiring? || phase.GotSlot? ==>
               s.tasks[s.calls[k].task].Attempting() && !s.tasks[s.calls[k].task].held
    ensures Goroutines(SetPhase(s, k, phase))
  {
    var s' := SetPhase(s, k, phase);
    forall u | u in s'.tasks ensures TaskOk(s', u) {
      assert TaskOk(s, u);
    }
    forall x | x in s'.active ensures ActiveOk(s', x) {
      assert ActiveOk(s, x);
    }
    forall j | j in s'.calls ensures CallOk(s', j) {
      assert CallOk(s, j);
    }
  }

  lemma GoroutinesOf(s: Exec)
    requires Inv(s)
    ensures Goroutines(s)
  {
  }

  lemma SetPhaseKept(s: Exec, k: CallId, phase: CallPhase)
    requires Inv(s) && k in s.calls && s.calls[k].OwnsMutex() && s.calls[k].task in s.tasks
    requires phase.Rechecking? || phase.GotSlot? || phase.Reacquiring?
    requires phase.Reacquiring? || phase.GotSlot? ==>
               s.tasks[s.calls[k].task].Attempting() && !s.tasks[s.calls[k].task].held
    ensures Kept(s, SetPhase(s, k, phase))
  {
    hide Inv, Goroutines, Kept;
    GoroutinesOf(s);
    SetPhaseKeepsGoroutines(s, k, phase);
    CallStepKept(s, SetPhase(s, k, phase));
  }

  lemma ReacquireKept(s: Exec, k: CallId)
    requires Inv(s) && CallAt(s, k, Reacquiring)
    ensures Kept(s, SetPhase(s, k, GotSlot))
  {
    assert CallOk(s, k);
    hide NodesOk, Goroutines, Kept;
    SetPhaseKept(s, k, GotSlot);
  }

  lemma ResumedKeepsGoroutines(s: Exec, k: CallId)
    requires Goroutines(s) && k in s.calls && s.calls[k].OwnsMutex() && s.calls[k].task in s.tasks
    ensures Goroutines(Resumed(s, k))
  {
    var s' := Resumed(s, k);
    assert CallOk(s, k);
    forall u | u in s'.tasks ensures TaskOk(s', u) {
      assert TaskOk(s, u);
    }
    forall x | x in s'.active ensures ActiveOk(s', x) {
      assert ActiveOk(s, x);
    }
    forall j | j in s'.calls ensures CallOk(s', j) {
      assert CallOk(s, j);
    }
  }

  lemma ResumedKept(s: Exec, k: CallId)
    requires Inv(s) && k in s.calls && s.calls[k].OwnsMutex() && s.calls[k].task in s.tasks
    ensures Kept(s, Resumed(s, k))
  {
    hide NodesOk, Goroutines, SlotsOk, Evolves, Kept;
    ResumedKeepsGoroutines(s, k);
    CallStepKept(s, Resumed(s, k));
  }

  lemma RecheckKept(s: Exec, k: CallId)
    requires Inv(s) && CallAt(s, k, Rechecking)
    ensures Kept(s, Recheck(s, k))
  {
    var call := s.calls[k];
    if s.loop.failed || !ParentActive(s, call.parent, call.attempt) || s.active[call.parent] != call.task
       || Over(s, call.task) || s.tasks[call.task].held
    {
      ResumedKept(s, k);
    } else {
      assert ActiveOk(s, call.parent);
      SetPhaseKept(s, k, Reacquiring);
    }
  }

  lemma HoldingKeepsGoroutines(s: Exec, k: CallId)
    requires Goroutines(s) && CallAt(s, k, GotSlot)
    ensures Goroutines(Holding(s, k))
  {
    var s' := Holding(s, k);
    assert CallOk(s, k);
    forall u | u in s'.tasks ensures TaskOk(s', u) {
      assert TaskOk(s, u);
    }
    forall x | x in s'.active ensures ActiveOk(s', x) {
      assert ActiveOk(s, x);
    }
    forall j | j in s'.calls ensures CallOk(s', j) {
      assert CallOk(s, j);
    }
  }

  lemma HoldingKeepsSlots(s: Exec, k: CallId)
    requires Goroutines(s) && CallAt(s, k, GotSlot) && s.calls[k].parent in s.nodes && CanReclaim(s, k)
    requires SlotsMatch(s.nodes, s.active, s.tasks)
    ensures var s' := Holding(s, k); var parent := s.calls[k].parent;
            SlotsMatch(s.nodes[parent := Resuming(s.nodes[parent])], s'.active, s'.tasks)
  {
    forall x | x in s.active && s.active[x] == s.calls[k].task ensures x == s.calls[k].parent {
      assert ActiveOk(s, x);
    }
  }

  lemma HoldingInv(s: Exec, k: CallId)
    requires Inv(s) && CallAt(s, k, GotSlot)
    ensures Inv(Holding(s, k))
  {
    HoldingKeepsGoroutines(s, k);
  }

  lemma RestoredGoroutines(s: Exec, k: CallId)
    requires Goroutines(s) && CallAt(s, k, GotSlot) && s.calls[k].parent in s.nodes && CanReclaim(s, k)
    ensures Goroutines(Wrote(Holding(s, k), s.calls[k].parent, Resuming(s.nodes[s.calls[k].parent])))
  {
    assert TaskOk(s, s.calls[k].task);
    assert ActiveOk(s, s.calls[k].parent);
    HoldingKeepsGoroutines(s, k);
    WroteKeepsGoroutines(Holding(s, k), s.calls[k].parent, Resuming(s.nodes[s.calls[k].parent]));
  }

  lemma RestoredInv(s: Exec, k: CallId)
    requires Inv(s) && CallAt(s, k, GotSlot) && s.calls[k].parent in s.nodes && CanReclaim(s, k)
    ensures var s' := Wrote(Holding(s, k), s.calls[k].parent, Resuming(s.nodes[s.calls[k].parent]));
            Inv(s') && Evolves(s.nodes, s'.nodes)
  {
    var parent := s.calls[k].parent;
    var next := Resuming(s.nodes[parent]);
    assert TaskOk(s, s.calls[k].task);
    assert ActiveOk(s, parent);
    RestoredGoroutines(s, k);
    PauseKeepsNodes(s, Wrote(Holding(s, k), parent, next), parent, next);
  }

  /** The slot is back and the parent runs again. */
  lemma RestoredKept(s: Exec, k: CallId)
    requires Inv(s) && CallAt(s, k, GotSlot) && s.calls[k].parent in s.nodes && CanReclaim(s, k)
    ensures Kept(s, Wrote(Holding(s, k), s.calls[k].parent, Resuming(s.nodes[s.calls[k].parent])))
  {
    RestoredInv(s, k);
    if SlotsMatch(s.nodes, s.active, s.tasks) { HoldingKeepsSlots(s, k); }
  }

  lemma ReclaimKept(s: Exec, k: CallId, ok: bool)
    requires Inv(s) && CallAt(s, k, GotSlot) && s.calls[k].parent in s.nodes
    ensures Kept(s, Reclaim(s, k, ok))
  {
    hide Goroutines, CanReclaim, SlotsMatch, Tree, Accounts, TimersArmed, Settled;
    if !CanReclaim(s, k) {
      ResumedKept(s, k);
    } else if Accepted(s, ok) {
      RestoredKept(s, k);
    } else {
      HoldingInv(s, k);
      RejectedKept(Holding(s, k));
    }
  }

  // ---- Cancellation, timers, the clock ---------------------------------------

  lemma CancelAttemptKept(s: Exec, id: Id)
    requires Inv(s)
    ensures Kept(s, CancelAttempt(s, id))
  {
    if id in s.active && s.active[id] in s.tasks {
      assert TaskOk(s, s.active[id]);
      SetTaskKept(s, s.active[id], s.tasks[s.active[id]].(canceled := true));
    }
  }

  lemma CanceledActionLegal(n: Node, l: Ledger, now: Time)
    requires !n.Terminal() && AccountOk(n, l, now)
    ensures LegalCommit(n, CanceledAction(n)) && AccountOk(CanceledAction(n), l, now)
  {
  }

  lemma CancelLiveKept(s: Exec, id: Id, ok: bool, c: Closing)
    requires Inv(s) && id in s.nodes && !s.nodes[id].Terminal()
    requires ClosesBelow(s, id, CanceledAction(s.nodes[id]), ok, c)
    ensures Kept(s, CommitAndClose(CancelAttempt(s, id), id, CanceledAction(s.nodes[id]), ok, c, "ancestor canceled"))
  {
    CancelAttemptKept(s, id);
    CanceledActionLegal(s.nodes[id], s.book.ledger[id], s.loop.now);
    CommitAndCloseKept(CancelAttempt(s, id), id, CanceledAction(s.nodes[id]), ok, c, "ancestor canceled");
  }

  lemma CloseSubtreeKept(s: Exec, id: Id, c: Closing, reason: string)
    requires Inv(s) && id in s.nodes && ClosingPossible(s, CloseSet(s.nodes, id), c)
    ensures Kept(s, Close(s, c, reason))
  {
    CloseKeepsNodes(s, c, reason);
    CloseKeepsGoroutines(s, c, reason);
    if SlotsMatch(s.nodes, s.active, s.tasks) { CloseKeepsSlots(s, c, reason); }
  }

  lemma CancelSubtreeKept(s: Exec, id: Id, ok: bool, c: Closing)
    requires Inv(s) && id in s.nodes
    requires if s.nodes[id].Terminal() then ClosingPossible(s, CloseSet(s.nodes, id), c)
             else ClosesBelow(s, id, CanceledAction(s.nodes[id]), ok, c)
    ensures Kept(s, CancelSubtree(s, id, ok, c))
  {
    if s.nodes[id].Terminal() {
      CloseSubtreeKept(s, id, c, "ancestor canceled");
    } else {
      CancelLiveKept(s, id, ok, c);
    }
  }

  lemma CancelAllKept(s: Exec, c: Closing)
    requires Inv(s) && ClosingPossible(s, s.nodes.Keys, c)
    ensures Kept(s, CanceledRun(s, c))
  {
    var w := Close(s, c, "run canceled");
    CloseAllKept(s, c, "run canceled");
    EndContextKept(w, CanceledRun(s, c));
  }

  lemma TimerFiresKept(s: Exec, timer: Timer)
    requires Inv(s) && timer in s.loop.timers && timer.at <= s.loop.now
    ensures Kept(s, TimerFires(s, timer))
  {
    OutsideKeepsGoroutines(s, TimerFires(s, timer));
  }

  lemma TickKept(s: Exec, to: Time)
    requires Inv(s) && s.loop.now <= to
    ensures Kept(s, s.(loop := s.loop.(now := to)))
  {
    OutsideKeepsGoroutines(s, s.(loop := s.loop.(now := to)));
  }

  /** Parking, waking, returning and dropping timers move the loop only. */
  lemma LoopKept(s: Exec, s': Exec)
    requires Inv(s) && s' == s.(loop := s'.loop)
    requires s'.loop.now == s.loop.now && s'.loop.failed == s.loop.failed && (s.loop.ctxDone ==> s'.loop.ctxDone)
    requires !s'.loop.ctxDone ==> s'.loop.timers == s.loop.timers
    requires s'.loop.scheduler.ReturnedByRoot? ==> s.loop.scheduler.ReturnedByRoot?
    requires s'.loop.scheduler.Parked? && !s'.loop.wake && !s'.loop.ctxDone ==>
               RootLive(s.nodes, s.book.root) && Settled(s.nodes, s.loop.timers)
    ensures Kept(s, s')
  {
    OutsideKeepsGoroutines(s, s');
  }
}
