/** What every step of the executor keeps. */
module ExecInvariants {
  import opened Base
  import opened Graph
  import opened Exec

  // ---- What holds of the nodes ----------------------------------------------

  /** The account of one node: runs are bounded by the failures, failures by the limit,
      and a retry starts no earlier than its backoff allows. */
  predicate AccountOk(n: Node, l: Ledger, now: Time) {
    && (l.base < n.Limit() ==>
          && l.base <= n.failures <= n.Limit()
          && l.runs <= n.Limit() - l.base
          && (!n.Terminal() ==> n.failures < n.Limit() && l.runs <= n.failures - l.base + 1)
          && (n.Idle() ==> l.runs <= n.failures - l.base))
    && (n.state.Pending? ==> l.notBefore <= n.nextAttemptAt)
    && (!n.state.Pending? && !n.Terminal() ==> l.notBefore <= now)
  }

  predicate Accounts(nodes: Nodes, ledger: map<Id, Ledger>, now: Time) {
    && ledger.Keys == nodes.Keys
    && forall id :: id in nodes ==> AccountOk(nodes[id], ledger[id], now)
  }

  /** No lost wake-up: while the loop is parked with nothing in its wake buffer, the root
      is live and every pending node has a timer or waits for a live prerequisite. */
  predicate WakeOk(s: Exec) {
    s.loop.scheduler.Parked? && !s.loop.wake && !s.loop.ctxDone ==> RootLive(s.nodes, s.book.root) && Settled(s.nodes, s.loop.timers)
  }

  ghost predicate NodesOk(s: Exec) {
    && Tree(s.nodes, s.book.root)
    && Accounts(s.nodes, s.book.ledger, s.loop.now)
    && (!s.loop.ctxDone ==> TimersArmed(s.nodes, s.loop.timers, s.loop.now))
    && WakeOk(s)
    && (s.loop.failed ==> s.loop.ctxDone)
    && (s.loop.scheduler.ReturnedByRoot? ==> AllTerminal(s.nodes))
  }

  predicate AllTerminal(nodes: Nodes) {
    forall id :: id in nodes ==> nodes[id].Terminal()
  }

  /** Every node either stays as it was or takes one legal commit. */
  predicate Evolves(a: Nodes, b: Nodes) {
    forall id :: id in a ==> id in b && (b[id] == a[id] || LegalCommit(a[id], b[id]))
  }

  /** Legal commits that leave nothing newly pending keep everything said of the nodes. */
  lemma EvolvesKeeps(a: Nodes, b: Nodes, root: Id, timers: set<Timer>, now: Time)
    requires Evolves(a, b) && a.Keys == b.Keys
    requires forall id :: id in b && b[id].state.Pending? ==> b[id] == a[id]
    ensures Tree(a, root) ==> Tree(b, root)
    ensures TimersArmed(a, timers, now) ==> TimersArmed(b, timers, now)
  {
    if Tree(a, root) { SameLinksSameTree(a, b, root); }
    if TimersArmed(a, timers, now) {
      forall id | id in b && b[id].state.Pending? ensures b[id].nextAttemptAt <= now || TimerFor(b, id) in timers {
        assert TimerFor(a, id) == TimerFor(b, id);
      }
    }
  }

  lemma WriteEvolves(nodes: Nodes, id: Id, next: Node, ledger: map<Id, Ledger>, now: Time)
    requires id in nodes && LegalCommit(nodes[id], next) && Accounts(nodes, ledger, now) && AccountOk(next, ledger[id], now)
    ensures var after := nodes[id := next];
            && Evolves(nodes, after) && Accounts(after, ledger, now) && after.Keys == nodes.Keys
            && next.spec.parent == nodes[id].spec.parent && !nodes[id].Terminal()
  {
    hide AccountOk;
  }

  /** One committed write; goroutines and calls are not part of what is said of the nodes. */
  lemma WriteKeepsNodes(s: Exec, s': Exec, id: Id, next: Node)
    requires NodesOk(s) && id in s.nodes && LegalCommit(s.nodes[id], next)
    requires AccountOk(next, s.book.ledger[id], s.loop.now) && !next.state.Pending?
    requires s' == Wrote(s, id, next).(tasks := s'.tasks, active := s'.active, calls := s'.calls)
    ensures NodesOk(s') && Evolves(s.nodes, s'.nodes)
  {
    hide TimersArmed, Tree, Settled, RootLive, Evolves, LegalCommit, Accounts, AccountOk;
    WriteEvolves(s.nodes, id, next, s.book.ledger, s.loop.now);
    EvolvesKeeps(s.nodes, s.nodes[id := next], s.book.root, s.loop.timers, s.loop.now);
  }

  lemma CanceledInEvolves(nodes: Nodes, done: set<Id>, reason: string, ledger: map<Id, Ledger>, now: Time)
    requires done <= LiveAmong(nodes, nodes.Keys) && Accounts(nodes, ledger, now)
    ensures var after := CanceledIn(nodes, done, reason);
            && Evolves(nodes, after) && Accounts(after, ledger, now) && after.Keys == nodes.Keys
            && (forall id :: id in after && after[id].state.Pending? ==> after[id] == nodes[id])
            && (AllTerminal(nodes) ==> AllTerminal(after)) && (done == {} ==> after == nodes)
  {
  }

  /** A commit followed by a close is still at most one commit per node. */
  lemma CommitAndCloseEvolves(nodes: Nodes, id: Id, next: Node, done: set<Id>, reason: string)
    requires id in nodes && LegalCommit(nodes[id], next) && next.Terminal()
    requires done <= LiveAmong(nodes[id := next], nodes.Keys)
    ensures Evolves(nodes, CanceledIn(nodes[id := next], done, reason))
  {
  }

  lemma CloseKeepsNodes(s: Exec, c: Closing, reason: string)
    requires NodesOk(s) && c.done <= LiveAmong(s.nodes, s.nodes.Keys)
    requires s.loop.failed ==> c.done == {}
    ensures NodesOk(Close(s, c, reason)) && Evolves(s.nodes, Close(s, c, reason).nodes)
  {
    hide Evolves, Accounts, Tree, TimersArmed, Settled, RootLive, AllTerminal, LiveAmong, CanceledIn;
    CanceledInEvolves(s.nodes, c.done, reason, s.book.ledger, s.loop.now);
    EvolvesKeeps(s.nodes, CanceledIn(s.nodes, c.done, reason), s.book.root, s.loop.timers, s.loop.now);
  }

  lemma CloseAllTerminates(s: Exec, c: Closing, reason: string)
    requires ClosingPossible(s, s.nodes.Keys, c) && c.Ok()
    ensures var after := Close(s, c, reason).nodes; forall id :: id in after ==> after[id].Terminal()
  {
  }

  // ---- Goroutines and attempt records ---------------------------------------

  /** A goroutine's phase against the state of its node. */
  predicate Fits(n: Node, task: Task) {
    && (task.Alive() ==> !n.state.Pending?)
    && (task.Attempting() ==> n.Terminal() || (n.InAttempt() && n.attempt == task.number))
    && (task.Alive() && !task.Attempting() ==>
          || n.Terminal()
          || (if task.phase.Ensuring? then n.state.Waiting? && n.waitingOn == ForImage else n.state.Ready?))
    && (task.held ==> task.phase.Acquired? || task.Attempting())
    && (task.phase.Acquired? ==> task.held)
  }

  /** Goroutine `t` agrees with its node, is the only live one of that node, and while it
      has an attempt it is the node's active one. */
  predicate TaskOk(s: Exec, t: TaskId)
    requires t in s.tasks
  {
    var task := s.tasks[t];
    && task.node in s.nodes
    && Fits(s.nodes[task.node], task)
    && (task.Alive() ==> task.node in s.book.worker && s.book.worker[task.node] == t)
    && (task.Attempting() ==> task.node in s.active && s.active[task.node] == t)
  }

  predicate ActiveOk(s: Exec, id: Id)
    requires id in s.active
  {
    s.active[id] in s.tasks && s.tasks[s.active[id]].node == id && s.tasks[s.active[id]].Attempting()
  }

  predicate CallOk(s: Exec, k: CallId)
    requires k in s.calls
  {
    var call := s.calls[k];
    && call.task in s.tasks
    && s.tasks[call.task].node == call.parent
    && (call.OwnsMutex() ==> s.tasks[call.task].resumer == Some(k))
    && (call.phase.Reacquiring? || call.phase.GotSlot? ==>
          s.tasks[call.task].Attempting() && !s.tasks[call.task].held)
  }

  predicate Goroutines(s: Exec) {
    && (forall t :: t in s.tasks ==> TaskOk(s, t))
    && (forall id :: id in s.active ==> ActiveOk(s, id))
    && (forall k :: k in s.calls ==> CallOk(s, k))
  }

  /** Changing one goroutine and, with it, its node. */
  lemma MoveKeepsGoroutines(s: Exec, t: TaskId, next: Node, task: Task)
    requires Goroutines(s) && t in s.tasks
    requires var id := s.tasks[t].node;
             && id in s.book.worker && s.book.worker[id] == t
             && task.node == id && Fits(next, task)
             && (task.Attempting() ==> id in s.active && s.active[id] == t)
             && (id in s.active ==> task.Attempting())
    requires task.resumer == s.tasks[t].resumer
    requires s.tasks[t].Attempting() ==>
               s.tasks[t].resumer.None? || (task.Attempting() && task.held == s.tasks[t].held)
    ensures Goroutines(Move(s, t, next, task))
  {
    var s' := Move(s, t, next, task);
    forall u | u in s'.tasks ensures TaskOk(s', u) {
      assert TaskOk(s, u);
    }
    forall id | id in s'.active ensures ActiveOk(s', id) {
      assert ActiveOk(s, id);
    }
    forall k | k in s'.calls ensures CallOk(s', k) {
      assert CallOk(s, k);
    }
  }

  lemma SetTaskKeepsGoroutines(s: Exec, t: TaskId, task: Task)
    requires Goroutines(s) && t in s.tasks && s.tasks[t].node in s.nodes
    requires var id := s.tasks[t].node;
             && (task.Alive() ==> s.tasks[t].Alive())
             && task.node == id && Fits(s.nodes[id], task)
             && (task.Attempting() <==> s.tasks[t].Attempting())
    requires task.resumer == s.tasks[t].resumer
    requires s.tasks[t].Attempting() ==> task.held == s.tasks[t].held
    ensures Goroutines(SetTask(s, t, task))
  {
    var s' := SetTask(s, t, task);
    assert TaskOk(s, t);
    forall u | u in s'.tasks ensures TaskOk(s', u) {
      assert TaskOk(s, u);
    }
    forall id | id in s'.active ensures ActiveOk(s', id) {
      assert ActiveOk(s, id);
    }
    forall k | k in s'.calls ensures CallOk(s', k) {
      assert CallOk(s, k);
    }
  }

  lemma RejectedKeepsGoroutines(s: Exec)
    requires Goroutines(s)
    ensures Goroutines(Rejected(s))
  {
    var s' := Rejected(s);
    forall u | u in s'.tasks ensures TaskOk(s', u) {
      assert TaskOk(s, u);
    }
    forall id | id in s'.active ensures ActiveOk(s', id) {
      assert ActiveOk(s, id);
    }
    forall k | k in s'.calls ensures CallOk(s', k) {
      assert CallOk(s, k);
    }
  }


  lemma CloseKeepsGoroutines(s: Exec, c: Closing, reason: string)
    requires Goroutines(s) && c.done <= s.nodes.Keys
    ensures Goroutines(Close(s, c, reason))
  {
    var s' := Close(s, c, reason);
    forall u | u in s'.tasks ensures TaskOk(s', u) {
      assert TaskOk(s, u);
    }
    forall id | id in s'.active ensures ActiveOk(s', id) {
      assert ActiveOk(s, id);
    }
    forall k | k in s'.calls ensures CallOk(s', k) {
      assert CallOk(s, k);
    }
  }

  /** Writing a node whose goroutine, if any, still fits it. */
  lemma WroteKeepsGoroutines(s: Exec, id: Id, next: Node)
    requires Goroutines(s) && id in s.nodes
    requires (id in s.book.worker && s.book.worker[id] in s.tasks && s.tasks[s.book.worker[id]].node == id)
             ==> Fits(next, s.tasks[s.book.worker[id]])
    ensures Goroutines(Wrote(s, id, next))
  {
    var s' := Wrote(s, id, next);
    forall u | u in s'.tasks ensures TaskOk(s', u) {
      assert TaskOk(s, u);
    }
    forall x | x in s'.active ensures ActiveOk(s', x) {
      assert ActiveOk(s, x);
    }
    forall k | k in s'.calls ensures CallOk(s', k) {
      assert CallOk(s, k);
    }
  }

  // ---- Slots ----------------------------------------------------------------

  /** A running node's attempt holds a slot; one waiting for children holds none. */
  predicate SlotsMatch(nodes: Nodes, active: map<Id, TaskId>, tasks: map<TaskId, Task>) {
    forall id :: id in nodes && nodes[id].InAttempt() ==>
      && id in active && active[id] in tasks
      && tasks[active[id]].held == nodes[id].state.Running?
  }

  predicate SlotsOk(s: Exec) {
    !s.loop.ctxDone ==> SlotsMatch(s.nodes, s.active, s.tasks)
  }

  lemma TaskKeepsSlots(s: Exec, t: TaskId, task: Task)
    requires Goroutines(s) && t in s.tasks && SlotsMatch(s.nodes, s.active, s.tasks)
    requires s.tasks[t].Attempting() ==> task.held == s.tasks[t].held
    ensures SlotsMatch(s.nodes, s.active, s.tasks[t := task])
  {
    forall id | id in s.nodes && s.nodes[id].InAttempt()
      ensures s.active[id] != t || task.held == s.tasks[t].held
    {
      assert ActiveOk(s, id);
    }
  }

  lemma NodeKeepsSlots(nodes: Nodes, active: map<Id, TaskId>, tasks: map<TaskId, Task>, id: Id, next: Node)
    requires SlotsMatch(nodes, active, tasks) && !next.InAttempt()
    ensures SlotsMatch(nodes[id := next], active, tasks)
  {
  }

  lemma MoveKeepsSlots(s: Exec, t: TaskId, id: Id, next: Node, task: Task)
    requires Goroutines(s) && t in s.tasks && !s.tasks[t].Attempting() && !next.InAttempt()
    requires SlotsMatch(s.nodes, s.active, s.tasks)
    ensures SlotsMatch(s.nodes[id := next], s.active, s.tasks[t := task])
  {
    TaskKeepsSlots(s, t, task);
  }

  lemma CloseKeepsSlots(s: Exec, c: Closing, reason: string)
    requires SlotsMatch(s.nodes, s.active, s.tasks)
    ensures var s' := Close(s, c, reason); SlotsMatch(s'.nodes, s'.active, s'.tasks)
  {
  }

  // ---- All of it ------------------------------------------------------------

  ghost predicate Inv(s: Exec) {
    && NodesOk(s)
    && Goroutines(s)
  }
}
