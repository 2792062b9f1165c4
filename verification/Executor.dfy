/** The executor itself: fields changed in place by the sections that hold its lock. Every
    section is proved to be one step of the state machine, so that what holds over runs
    holds of the fields at every moment. */
module Executors {
  import opened Base
  import opened Graph
  import opened Exec
  import opened ExecInvariants
  import opened ExecSteps
  import opened ExecRuns
  import opened ExecSlots
  import C = ExecClosure
  import opened ExecWrites
  import opened Validate
  import opened Dispatch

  // ---- The worklist of a close ----------------------------------------------

  /** The breadth-first worklist of `closeLocked`: it ends, and with exactly the proper
      descendants, in whatever order the nodes are looked at. */
  method Worklist(nodes: Nodes, parent: Id) returns (ids: set<Id>)
    ensures ids == CloseSet(nodes, parent)
  {
    if parent == NIL { return nodes.Keys; }
    ids := {};
    var queue := [parent];
    DescendantsClosed(nodes, parent);
    while queue != []
      invariant ids <= Descendants(nodes, parent)
      invariant forall p :: p in queue ==> p == parent || p in ids
      invariant forall p, c :: (p == parent || p in ids) && p !in queue && ChildOf(nodes, c, p) ==> c in ids
      decreases nodes.Keys - ids, |queue|
    {
      var id := queue[0];
      queue := queue[1..];
      var rest := nodes.Keys;
      ghost var ids0, queue0 := ids, queue;
      while rest != {}
        invariant rest <= nodes.Keys && ids0 <= ids <= Descendants(nodes, parent)
        invariant ids == ids0 ==> queue == queue0
        invariant forall p :: p in queue ==> p == parent || p in ids
        invariant forall p, c :: (p == parent || p in ids) && p !in queue && p != id && ChildOf(nodes, c, p) ==> c in ids
        invariant forall c :: ChildOf(nodes, c, id) && c !in rest ==> c in ids
      {
        var child :| child in rest;
        rest := rest - {child};
        if nodes[child].spec.parent == Some(id) && child !in ids {
          assert ChildOf(nodes, child, id);
          ids := ids + {child};
          queue := queue + [child];
        }
      }
    }
    DescendantsLeast(nodes, parent, ids);
  }

  /** The attempt record of a node is a record of that node. */
  predicate Named(s: Exec) {
    forall id :: id in s.active ==> s.active[id] in s.tasks && s.tasks[s.active[id]].node == id
  }

  /** The first lost prerequisite of a node fails it; a second one fails it again. */
  function FailStep(again: bool, id: Id, p: Id, ok: bool): Step {
    if again then DispatchFailAgain(id, ok) else DispatchFail(id, p, ok)
  }

  lemma FailStepIs(s: Exec, id: Id, current: Node, p: Id, again: bool, ok: bool)
    requires s.loop.scheduler.Scheduling? && !s.loop.failed && !s.loop.ctxDone && id in s.nodes
    requires if again then s.nodes[id] == FailedPrerequisite(current) && LostEntries(s.nodes, id, current.spec.prerequisites) >= 2
             else s.nodes[id] == current && CanFailPending(s, id, p)
    ensures var step := FailStep(again, id, p, ok);
            && Next(s, step, Commit(s, id, FailedPrerequisite(current), ok)) && Dispatching(step)
            && Sent(s, step, []) == One(s, id, FailedPrerequisite(current), ok) && Ordered(step, [])
  {
    hide Next, Sent, Ordered, LostEntries, Commit;
    var step := FailStep(again, id, p, ok);
    DispatchSends(s, step);
    DispatchIs(s, step, Commit(s, id, FailedPrerequisite(current), ok));
  }

  lemma LaunchReleases(s: Exec, t: TaskId, ok: bool)
    requires At(s, t, Acquired)
    ensures Releases(s, Launch(t, ok)) ==
            if !s.nodes[s.tasks[t].node].state.Ready? || s.loop.ctxDone || !Accepted(s, ok) then 1 else 0
  {
    hide Accepted;
  }

  lemma NothingCanceled(nodes: Nodes, reason: string)
    ensures Cancellations(nodes, [], reason) == [] && Enumerates([], {})
  {
  }

  lemma CloseNothing(s: Exec, reason: string)
    ensures Close(s, Closing({}, None), reason) == s
  {
  }

  /** One more node of the worklist is canceled. */
  lemma CloseOneMore(s: Exec, done: set<Id>, id: Id, reason: string)
    requires Named(s) && id in s.nodes && id !in done && !s.loop.failed
    ensures var m := Close(s, Closing(done, None), reason);
            Commit(CancelAttempt(m, id), id, CanceledNode(s.nodes[id], reason), true) == Close(s, Closing(done + {id}, None), reason)
  {
    var m := Close(s, Closing(done, None), reason);
    assert CanceledIn(s.nodes, done, reason)[id := CanceledNode(s.nodes[id], reason)] == CanceledIn(s.nodes, done + {id}, reason);
    hide CanceledNode;
    assert CancelAttempt(m, id).tasks == Close(s, Closing(done + {id}, None), reason).tasks;
  }

  /** The write of one node of the worklist is refused, with its attempt canceled by then. */
  lemma CloseStops(s: Exec, done: set<Id>, id: Id, reason: string)
    requires Named(s) && id in s.nodes && id !in done && !s.loop.failed
    ensures var m := Close(s, Closing(done, None), reason);
            Rejected(CancelAttempt(m, id)) == Close(s, Closing(done, Some(id)), reason)
  {
  }

  lemma CloseRefused(s: Exec, id: Id, reason: string)
    requires Named(s) && id in s.nodes && s.loop.failed
    ensures Rejected(CancelAttempt(s, id)) == Close(s, Closing({}, Some(id)), reason)
  {
  }

  // ---- The pool -------------------------------------------------------------

  /** The buffered channel that stands for the slots. */
  class Pool {
    var used: int
    const capacity: int

    constructor (slots: int)
      ensures used == 0 && capacity == Max(slots, 1)
    {
      used, capacity := 0, Max(slots, 1);
    }

    method Acquire()
      requires used < capacity
      modifies this
      ensures used == old(used) + 1
    {
      used := used + 1;
    }

    method Release()
      modifies this
      ensures used == old(used) - 1
    {
      used := used - 1;
    }
  }

  // ---- The executor ---------------------------------------------------------

  /** How the first section of `Run` ended. */
  datatype Began = AlreadyStarted | Duplicates | Flawed(flaw: Flaw) | Nothing | Scheduled

  /** How one round of the scheduling loop ended. */
  datatype Round = WriteRefused | ContextEnded | RootEnded(ok: bool) | WaitsForWake

  datatype Answer = Refused(message: string) | Accept

  class Executor {
    const pool: Pool
    var nodes: Nodes
    var active: map<Id, TaskId>
    var tasks: map<TaskId, Task>
    var calls: map<CallId, Call>
    var loop: Loop
    var started: bool
    var root: Id
    var nextTask: TaskId

    ghost var book: Book
    ghost var trace: seq<Exec>
    ghost var steps: seq<Step>

    /** The transitions sent to the store, with its answers, and the orders in which the steps that
        closed nodes went through them. */
    ghost var log: seq<Write>
    ghost var orders: seq<seq<Id>>

    ghost function View(): Exec
      reads this
    {
      Exec(nodes, active, tasks, calls, loop, book)
    }

    /** The history of the fields is a run of the state machine. */
    ghost predicate Valid()
      reads this
    {
      && GoodRun(trace, steps) && |trace| > 0 && trace[|trace| - 1] == View() && book.root == root
      && (forall t :: t in tasks ==> t < nextTask)
      && IsLog(trace, steps, orders, log)
    }

    /** The section was one step of the state machine, and took and gave back slots as that
        step says. */
    twostate predicate Took(step: Step)
      reads this, pool
    {
      && Valid()
      && Next(old(View()), step, View())
      && trace == old(trace) + [View()] && steps == old(steps) + [step]
      && pool.used == old(pool.used) + Acquires(old(View()), step) - Releases(old(View()), step)
    }

    /** The same for a section that has nothing to do with slots. */
    twostate predicate Taken(step: Step)
      reads this
    {
      && Valid()
      && Next(old(View()), step, View())
      && trace == old(trace) + [View()] && steps == old(steps) + [step]
      && Acquires(old(View()), step) == 0 && Releases(old(View()), step) == 0
    }

    lemma Invariants()
      requires Valid()
      ensures Inv(View()) && Goroutines(View()) && Named(View())
    {
      RunInv(trace, steps, |trace| - 1);
      hide NodesOk;
      var s := View();
      forall id | id in s.active ensures s.active[id] in s.tasks && s.tasks[s.active[id]].node == id {
        assert ActiveOk(s, id);
      }
    }

    /** Adds a step that sent nothing to the history. */
    ghost method Record(step: Step)
      requires GoodRun(trace, steps) && |trace| > 0 && IsLog(trace, steps, orders, log) && Next(trace[|trace| - 1], step, View()) && Quiet(step)
      requires (forall t :: t in tasks ==> t < nextTask) && book.root == root
      modifies this`trace, this`steps, this`orders
      ensures Valid() && trace == old(trace) + [View()] && steps == old(steps) + [step]
    {
      hide GoodRun, Next, IsLog, Sent, Ordered, Quiet;
      QuietSends(trace[|trace| - 1], step, []);
      RecordSent(log, step, []);
    }

    /** Adds a step with what it sent. */
    ghost method RecordSent(before: seq<Write>, step: Step, order: seq<Id>)
      requires GoodRun(trace, steps) && |trace| > 0 && IsLog(trace, steps, orders, before) && Next(trace[|trace| - 1], step, View())
      requires log == before + Sent(trace[|trace| - 1], step, order) && Ordered(step, order)
      requires (forall t :: t in tasks ==> t < nextTask) && book.root == root
      modifies this`trace, this`steps, this`orders
      ensures Valid() && trace == old(trace) + [View()] && steps == old(steps) + [step]
    {
      hide GoodRun, Next, IsLog, Sent, Ordered;
      ExtendRun(trace, steps, step, View());
      LogGrows(trace, steps, orders, before, step, order, View());
      trace, steps, orders := trace + [View()], steps + [step], orders + [order];
    }

    /** What holds of the fields whenever the lock is free, with any snapshot. */
    lemma AtEveryRelease(id: Id)
      requires Valid()
      ensures Tree(nodes, root)
      ensures loop.scheduler.Parked? && !loop.wake && !loop.ctxDone ==>
                RootLive(nodes, root)
                && (id in nodes && nodes[id].state.Pending? ==> TimerFor(nodes, id) in loop.timers || Blocked(nodes, id))
      ensures loop.scheduler.ReturnedByRoot? ==> AllTerminal(nodes)
    {
      hide Goroutines, Accounts, TimersArmed, Tree;
      RunInv(trace, steps, |trace| - 1);
    }

    /** A terminal node has a live descendant only if the snapshot was like that, or a scheduling
        pass failed it above something live; a snapshot that is closed and has no parent waiting
        for a prerequisite stays closed. */
    lemma ClosedAtEveryRelease(id: Id)
      requires Valid() && !loop.failed
      ensures |trace| == |steps| + 1
      ensures Open(nodes, id) ==> Open(trace[0].nodes, id) || exists k :: 0 <= k < |steps| && C.Opens(trace[k], steps[k], id)
      ensures SubtreesClosed(trace[0].nodes) && C.ParentsReady(trace[0].nodes) ==> SubtreesClosed(nodes)
    {
      hide GoodRun, Open, C.Opens, SubtreesClosed, C.ParentsReady, Inv;
      FirstState(trace, steps);
      if Open(nodes, id) { C.RunOpens(trace, steps, |trace| - 1, id); }
      if SubtreesClosed(trace[0].nodes) && C.ParentsReady(trace[0].nodes) { C.RunKeepsSubtreesClosed(trace, steps, |trace| - 1); }
    }

    /** The store has been told everything the executor knows: a node is as the last acknowledged
        transition of it, or as in the snapshot or as added where there is none, and nothing is
        sent after a refusal, which is what fails the run. */
    lemma LogAtEveryRelease(id: Id)
      requires Valid()
      ensures |trace| == |steps| + 1
      ensures loop.failed <==> log != [] && !log[|log| - 1].ok
      ensures forall i :: 0 <= i < |log| - 1 ==> log[i].ok
      ensures id in nodes ==>
                if Latest(log, id).Some? then nodes[id] == Latest(log, id).value
                else Unwritten(trace, steps, |steps|, id, nodes[id])
    {
      hide GoodRun, IsLog;
      FirstState(trace, steps);
      RunIsTold(trace, steps, orders, log, id);
    }

    // ---- New and the start of Run -------------------------------------------

    /** Nothing has happened yet. */
    predicate Fresh()
      reads this
    {
      active == map[] && tasks == map[] && calls == map[]
      && loop == Loop(loop.now, {}, false, Scheduling, false, loop.failed)
    }

    /** `New`: the last node of an identifier wins, and a repeated identifier is an error. */
    constructor (snapshot: seq<(Id, Node)>, slots: Pool, start: Time)
      ensures pool == slots && loop.now == start && !started && Fresh() && nodes == LastOf(snapshot)
      ensures loop.failed <==> !Unique(snapshot)
    {
      pool := slots;
      nodes, active, tasks, calls := map[], map[], map[], map[];
      loop, started, root, nextTask := Loop(start, {}, false, Scheduling, false, false), false, NIL, 0;
      book, trace, steps, log, orders := Book(NIL, map[], map[]), [], [], [], [];
      new;
      for i := 0 to |snapshot|
        invariant nodes == LastOf(snapshot[..i]) && (loop.failed <==> !Unique(snapshot[..i]))
        invariant pool == slots && loop.now == start && !started && Fresh()
      {
        var (id, n) := snapshot[i];
        assert snapshot[..i + 1][..i] == snapshot[..i];
        UniqueExtends(snapshot[..i + 1]);
        if id in nodes { loop := loop.(failed := true); }
        nodes := nodes[id := n];
      }
      assert snapshot[..|snapshot|] == snapshot;
    }

    /** The timers of the nodes that are not due when they are looked at. */
    method ArmTimers()
      modifies this`loop
      ensures loop == old(loop).(now := loop.now, timers := loop.timers)
      ensures loop.now >= old(loop.now) && TimersArmed(nodes, loop.timers, loop.now)
    {
      var rest := nodes.Keys;
      while rest != {}
        invariant rest <= nodes.Keys && loop.now >= old(loop.now) && loop == old(loop).(now := loop.now, timers := loop.timers)
        invariant forall id :: id in nodes && id !in rest && nodes[id].state.Pending? ==>
                    nodes[id].nextAttemptAt <= loop.now || TimerFor(nodes, id) in loop.timers
      {
        var id :| id in rest;
        rest := rest - {id};
        var now := Later(loop.now);
        loop := loop.(now := now);
        if nodes[id].state.Pending? && now < nodes[id].nextAttemptAt {
          loop := loop.(timers := loop.timers + {TimerFor(nodes, id)});
        }
      }
    }

    /** The run is about to be scheduled for the first time. */
    ghost predicate AtStart()
      reads this
    {
      && TimersArmed(nodes, loop.timers, loop.now) && View() == Start(nodes, root, loop.now, loop.timers)
      && Valid() && trace == [View()] && steps == [] && log == []
    }

    method StartScheduling(found: Id)
      requires Fresh() && !loop.failed && Tree(nodes, found)
      modifies this
      ensures AtStart() && root == found && nodes == old(nodes) && started == old(started)
    {
      hide Tree, GoodRun, TimersArmed, IsLog, NewLedgers;
      root := found;
      ArmTimers();
      nextTask := 0;
      BeginHistory();
    }

    /** The history begins with the fields as they are. */
    ghost method BeginHistory()
      requires active == map[] && tasks == map[] && calls == map[] && loop == Loop(loop.now, loop.timers, false, Scheduling, false, false)
      requires Tree(nodes, root) && TimersArmed(nodes, loop.timers, loop.now)
      modifies this`book, this`trace, this`steps, this`log, this`orders
      ensures AtStart()
    {
      hide Tree, GoodRun, TimersArmed, IsLog, NewLedgers;
      book, trace, steps, log, orders := Book(root, map[], NewLedgers(nodes)), [], [], [], [];
      trace := [View()];
      StartIsRun(View());
      NothingLogged(View());
    }

    /** The first section of `Run`: an acceptable snapshot starts, any other is reported. */
    method Begin() returns (r: Began)
      requires NIL !in nodes && (!started ==> Fresh())
      modifies this
      ensures old(started) ==> r == AlreadyStarted
      ensures !old(started) && old(loop.failed) ==> r == Duplicates
      ensures !old(started) && !old(loop.failed) ==>
                && (r.Flawed? <==> nodes != map[] && !Acceptable(nodes))
                && (r == Nothing <==> nodes == map[]) && (r == Scheduled <==> nodes != map[] && Acceptable(nodes))
      ensures nodes == old(nodes) && started
      ensures r == Scheduled ==> Tree(nodes, root) && AtStart()
    {
      hide Tree, WellFormed, Acceptable, AtStart;
      if started { return AlreadyStarted; }
      started := true;
      if loop.failed { return Duplicates; }
      if nodes == map[] { return Nothing; }
      var flaw, found := CheckSnapshot(nodes);
      if flaw.Some? { return Flawed(flaw.value); }
      StartScheduling(found);
      return Scheduled;
    }

    // ---- Committing and closing ---------------------------------------------

    /** `commitLocked`. The store may refuse any write; that ends the run. */
    method CommitLocked(id: Id, next: Node) returns (ok: bool)
      modifies this`nodes, this`loop, this`log
      ensures View() == Commit(old(View()), id, next, ok) && log == old(log) + One(old(View()), id, next, ok)
      ensures ok ==> !old(loop.failed)
      ensures id in old(nodes) ==> nodes.Keys == old(nodes).Keys
    {
      if loop.failed { return false; }
      ok := *;
      log := log + [Write(id, next, ok)];
      if !ok {
        loop := loop.(failed := true, ctxDone := true, wake := true);
        return;
      }
      nodes := nodes[id := next];
      loop := loop.(wake := true);
    }

    /** Ends the context of a node's attempt, if it has one. */
    method CancelAttemptOf(id: Id)
      modifies this`tasks
      ensures View() == CancelAttempt(old(View()), id) && tasks.Keys == old(tasks).Keys
    {
      if id in active && active[id] in tasks {
        tasks := tasks[active[id] := tasks[active[id]].(canceled := true)];
      }
    }

    /** `closeLocked`: cancels every live node of the worklist until a write is refused. */
    method CloseLocked(parent: Id, reason: string) returns (ok: bool, ghost c: Closing, ghost order: seq<Id>)
      requires Named(View())
      modifies this`nodes, this`loop, this`tasks, this`log
      ensures ClosingPossible(old(View()), CloseSet(old(nodes), parent), c) && ok == c.Ok()
      ensures View() == Close(old(View()), c, reason)
      ensures log == old(log) + ClosingWrites(old(View()), c, order, reason) && Enumerates(order, c.done)
      ensures tasks.Keys == old(tasks).Keys && nodes.Keys == old(nodes).Keys
    {
      hide Close, CloseSet, CancelAttempt, Commit, Enumerates, Cancellations, Cancellation;
      ghost var s0 := View();
      var ids := Worklist(nodes, parent);
      CloseSetExists(nodes, parent);
      var rest := ids;
      c, order := Closing({}, None), [];
      CloseNothing(s0, reason);
      NothingCanceled(s0.nodes, reason);
      while rest != {}
        invariant rest <= ids && c.Ok() && c.done == LiveAmong(s0.nodes, ids - rest)
        invariant tasks.Keys == old(tasks).Keys && nodes.Keys == old(nodes).Keys
        invariant View() == Close(s0, c, reason) && (s0.loop.failed ==> c.done == {})
        invariant log == old(log) + ClosingWrites(s0, c, order, reason) && Enumerates(order, c.done)
      {
        var id :| id in rest;
        rest := rest - {id};
        CloseLeaves(s0, c, id, reason);
        if !nodes[id].Terminal() {
          var accepted;
          accepted, c, order := CancelOne(id, reason, c, order, s0, old(log));
          if !accepted { return false, c, order; }
        }
      }
      return true, c, order;
    }

    /** One live node of the worklist. */
    method CancelOne(id: Id, reason: string, ghost c0: Closing, ghost order0: seq<Id>, ghost s0: Exec, ghost log0: seq<Write>)
        returns (accepted: bool, ghost c: Closing, ghost order: seq<Id>)
      requires Named(s0) && c0.Ok() && id in s0.nodes && id !in c0.done && (s0.loop.failed ==> c0.done == {})
      requires View() == Close(s0, c0, reason) && id in nodes && nodes[id] == s0.nodes[id] && loop.failed == s0.loop.failed
      requires log == log0 + ClosingWrites(s0, c0, order0, reason) && Enumerates(order0, c0.done)
      modifies this`nodes, this`loop, this`tasks, this`log
      ensures View() == Close(s0, c, reason)
      ensures log == log0 + ClosingWrites(s0, c, order, reason) && Enumerates(order, c.done)
      ensures tasks.Keys == old(tasks).Keys && nodes.Keys == old(nodes).Keys
      ensures if accepted then c == c0.(done := c0.done + {id}) && !s0.loop.failed else c == c0.(stopped := Some(id)) && order == order0
    {
      hide Close, CancelAttempt, Commit, Enumerates, Cancellations;
      var n := nodes[id];
      CancelAttemptOf(id);
      accepted := CommitLocked(id, n.(state := Canceled, waitingOn := NoReason, report := n.report.(error := reason)));
      if accepted {
        CloseOneMore(s0, c0.done, id, reason);
        CancellationsAppend(s0.nodes, order0, id, reason);
        OrderAppend(order0, c0.done, id);
        c, order := c0.(done := c0.done + {id}), order0 + [id];
      } else {
        CloseEnds(s0, c0.done, id, reason);
        c, order := c0.(stopped := Some(id)), order0;
      }
    }

    // ---- The scheduler loop -------------------------------------------------

    /** The section was a sequence of dispatch steps and clock readings. */
    twostate predicate Dispatched()
      reads this
    {
      && Valid()
      && |old(steps)| <= |steps| && steps[..|old(steps)|] == old(steps)
      && |old(trace)| <= |trace| && trace[..|old(trace)|] == old(trace)
      && old(loop.now) <= loop.now
      && forall i :: |old(steps)| <= i < |steps| ==> Dispatching(steps[i])
    }

    twostate predicate DispatchedAndParked()
      reads this
    {
      && Valid() && loop.scheduler.Parked?
      && |old(steps)| < |steps| && steps[..|old(steps)|] == old(steps) && steps[|steps| - 1] == Park
      && |old(trace)| <= |trace| && trace[..|old(trace)|] == old(trace)
      && forall i :: |old(steps)| <= i < |steps| - 1 ==> Dispatching(steps[i])
    }

    /** A pass may go on: the run has neither failed nor been asked to stop. */
    predicate Going()
      reads this
    {
      loop.scheduler.Scheduling? && !loop.failed && !loop.ctxDone
    }

    /** The store refused a write of the pass. */
    predicate Stopped()
      reads this
    {
      loop.scheduler.Scheduling? && loop.failed
    }

    /** Looking at one node changed at most that node, and only as announced. */
    twostate predicate LookedAt(id: Id, propagated: bool)
      requires id in old(nodes)
      reads this
    {
      && Going() && loop.timers == old(loop.timers) && root == old(root)
      && id in nodes && nodes == old(nodes)[id := nodes[id]]
      && (nodes[id] != old(nodes)[id] || old(loop.wake) ==> loop.wake)
      && (if propagated then old(nodes)[id].state.Pending? && nodes[id].state.Failed?
          else nodes[id] == old(nodes)[id] || (old(nodes)[id].state.Pending? && nodes[id] == MadeReady(old(nodes)[id])))
    }

    method ReadClock() returns (now: Time)
      requires Valid()
      modifies this`loop, this`trace, this`steps, this`orders
      ensures Dispatched() && loop == old(loop).(now := now) && now >= old(loop.now)
    {
      now := Later(loop.now);
      loop := loop.(now := now);
      Record(Tick(now));
    }

    /** Commits the failed node; a second lost prerequisite commits it again. */
    method FailNode(id: Id, current: Node, p: Id, ghost again: bool) returns (accepted: bool)
      requires Valid() && Going() && id in nodes
      requires if again then nodes[id] == FailedPrerequisite(current) && LostEntries(nodes, id, current.spec.prerequisites) >= 2
               else nodes[id] == current && CanFailPending(View(), id, p)
      modifies this`nodes, this`loop, this`trace, this`steps, this`log, this`orders
      ensures Dispatched() && |steps| == |old(steps)| + 1
      ensures if accepted then View() == Wrote(old(View()), id, FailedPrerequisite(current)) else Stopped() && loop.now == old(loop.now)
    {
      hide GoodRun, IsLog, Sent, Ordered, Next, CanFailPending, LostEntries, FailStep;
      ghost var s := View();
      accepted := CommitLocked(id, current.(state := Failed, report := current.report.(error := "prerequisite failed")));
      FailStepIs(s, id, current, p, again, accepted);
      RecordSent(old(log), FailStep(again, id, p, accepted), []);
    }

    /** One entry of the list: a lost one commits the failed node. */
    method CheckEntry(id: Id, current: Node, i: nat, ghost again: bool) returns (done: bool, failed: bool, stopped: bool)
      requires Valid() && Going() && id in nodes && i < |current.spec.prerequisites|
      requires if again then nodes[id] == FailedPrerequisite(current) && LostEntries(nodes, id, current.spec.prerequisites[..i]) >= 1
               else nodes[id] == current && Due(current, loop.now)
      modifies this`nodes, this`loop, this`trace, this`steps, this`log, this`orders
      ensures Dispatched() && loop.now == old(loop.now)
      ensures var p := current.spec.prerequisites[i];
              (done <==> p in old(nodes) && old(nodes)[p].state.Done?) && (failed <==> Lost(old(nodes), p))
      ensures stopped ==> failed && Stopped()
      ensures !failed ==> View() == old(View()) && steps == old(steps)
      ensures failed && !stopped ==>
                View() == Wrote(old(View()), id, FailedPrerequisite(current)) && |steps| == |old(steps)| + 1
    {
      hide GoodRun, IsLog, Next, LostEntries;
      var p := current.spec.prerequisites[i];
      done, failed, stopped := p in nodes && nodes[p].state.Done?, false, false;
      if !done && (p !in nodes || nodes[p].Terminal()) {
        OneMoreEntry(nodes, id, current.spec.prerequisites, i);
        var accepted := FailNode(id, current, p, again);
        failed, stopped := true, !accepted;
      }
    }

    /** The prerequisites of a due node: each lost entry commits the failed node. */
    method CheckPrerequisites(id: Id) returns (ready: bool, propagated: bool, stopped: bool)
      requires Valid() && Going() && id in nodes && Due(nodes[id], loop.now)
      modifies this`nodes, this`loop, this`trace, this`steps, this`log, this`orders
      ensures Dispatched() && loop.now == old(loop.now)
      ensures stopped ==> Stopped()
      ensures !stopped ==> LookedAt(id, propagated)
      ensures !stopped && !propagated ==> nodes == old(nodes)
      ensures !stopped && !propagated ==> (ready <==> AllDone(nodes, nodes[id].spec.prerequisites))
      ensures !stopped && !propagated && !ready ==> Blocked(nodes, id)
      ensures !stopped && propagated ==> !ready
      ensures !stopped ==> |steps| == |old(steps)| + LostEntries(old(nodes), id, old(nodes)[id].spec.prerequisites)
    {
      hide GoodRun, IsLog, Next, LostEntries, Seen, Lost;
      ghost var s0 := View();
      var current := nodes[id];
      var entries := current.spec.prerequisites;
      ready, propagated, stopped := true, false, false;
      SeenNothing(nodes, id, entries);
      for i := 0 to |entries|
        invariant Dispatched() && View() == PassedOver(s0, id, propagated)
        invariant Seen(nodes, id, entries, i, ready, propagated)
        invariant |steps| == |old(steps)| + LostEntries(nodes, id, entries[..i])
      {
        ghost var before := nodes;
        OneMoreEntry(nodes, id, entries, i);
        SeenLost(nodes, id, entries, i, ready, propagated);
        var done, failed, stop := CheckEntry(id, current, i, propagated);
        if stop { return false, false, true; }
        SeenNext(before, nodes, id, entries, i, ready, propagated);
        if !done { ready := false; }
        if failed { propagated := true; }
      }
      assert entries[..|entries|] == entries;
      SeenAll(nodes, id, entries, ready, propagated);
      if propagated { FailedEntries(old(nodes), nodes, id, entries); }
    }

    /** What readying a node does to the fields. */
    method ReadyLocked(id: Id, current: Node) returns (accepted: bool, t: TaskId)
      requires id in nodes && current == nodes[id] && forall t :: t in tasks ==> t < nextTask
      modifies this`nodes, this`loop, this`tasks, this`book, this`nextTask, this`log
      ensures View() == MakeReady(old(View()), id, t, accepted) && t !in old(tasks) && book.root == old(book.root)
      ensures log == old(log) + One(old(View()), id, MadeReady(current), accepted)
      ensures accepted ==> !old(loop.failed)
      ensures forall t :: t in tasks ==> t < nextTask
    {
      t := nextTask;
      accepted := CommitLocked(id, current.(state := Ready, waitingOn := NoReason));
      if accepted {
        tasks := tasks[t := NewTask(id)];
        book := book.(worker := book.worker[id := t]);
        nextTask := t + 1;
      }
    }

    /** A due node whose prerequisites are all done becomes ready and gets a goroutine. */
    method ReadyNode(id: Id, current: Node) returns (accepted: bool)
      requires Valid() && Going() && id in nodes && current == nodes[id]
      requires Due(current, loop.now) && AllDone(nodes, current.spec.prerequisites)
      modifies this
      ensures Dispatched()
      ensures if accepted then LookedAt(id, false) && nodes[id] == MadeReady(old(nodes)[id]) else Stopped()
    {
      hide GoodRun, IsLog, Sent, Ordered, Next, AllDone;
      ghost var s := View();
      var t;
      accepted, t := ReadyLocked(id, current);
      DispatchIs(s, DispatchReady(id, t, accepted), View());
      DispatchSends(old(View()), DispatchReady(id, t, accepted));
      RecordSent(old(log), DispatchReady(id, t, accepted), []);
    }

    /** One node of a scheduling pass. */
    method DispatchNode(id: Id, ghost since: Time) returns (propagated: bool, stopped: bool)
      requires Valid() && Going() && id in nodes && since <= loop.now
      modifies this
      ensures Dispatched()
      ensures stopped ==> Stopped()
      ensures !stopped ==> LookedAt(id, propagated) && Rests(nodes, loop.timers, since, id)
    {
      hide GoodRun, IsLog, Next, Blocked, AllDone, NodesOk, Goroutines;
      propagated, stopped := false, false;
      var now := ReadClock();
      var current := nodes[id];
      if !current.state.Pending? || now < current.nextAttemptAt {
        Armed();
        return;
      }
      var ready;
      ready, propagated, stopped := CheckPrerequisites(id);
      if stopped || !ready { return; }
      var accepted := ReadyNode(id, current);
      stopped := !accepted;
    }

    lemma Armed()
      requires Valid() && !loop.ctxDone
      ensures TimersArmed(nodes, loop.timers, loop.now)
    {
      Invariants();
    }

    /** What a pass leaves alone, and that a changed graph leaves the wake buffer full. */
    twostate predicate Passing()
      reads this
    {
      && Going() && loop.timers == old(loop.timers) && root == old(root)
      && nodes.Keys == old(nodes).Keys && PendingSet(nodes) <= PendingSet(old(nodes))
      && (nodes != old(nodes) || old(loop.wake) ==> loop.wake)
    }

    /** One pass over all nodes, in any order. */
    method DispatchPass(ghost since: Time) returns (propagated: bool, stopped: bool)
      requires Valid() && Going() && since <= loop.now
      modifies this
      ensures Dispatched()
      ensures stopped ==> Stopped()
      ensures !stopped ==> Passing()
      ensures !stopped && !propagated ==> Settled(nodes, loop.timers) && Exhausted(nodes, since)
      ensures !stopped && propagated ==> PendingSet(nodes) < PendingSet(old(nodes))
    {
      hide GoodRun, IsLog, Next, Rests;
      propagated, stopped := false, false;
      var rest := nodes.Keys;
      while rest != {}
        invariant rest <= nodes.Keys && Dispatched() && Passing()
        invariant !propagated ==> forall x :: x in nodes && x !in rest ==> Rests(nodes, loop.timers, since, x)
        invariant propagated ==> PendingSet(nodes) < PendingSet(old(nodes))
      {
        var id :| id in rest;
        rest := rest - {id};
        ghost var before := nodes;
        var failedOne, stop := DispatchNode(id, since);
        if stop { return propagated, true; }
        LookedAtPasses(before, nodes, loop.timers, since, id, failedOne);
        propagated := propagated || failedOne;
      }
      if !propagated { RestsSettle(nodes, loop.timers, since); }
    }

    /** `dispatchLocked`: passes until one of them fails no node. Each repeated pass leaves
        fewer nodes pending. */
    method DispatchLocked()
      requires Valid() && Going()
      modifies this
      ensures Dispatched()
      ensures Stopped() || (Passing() && Settled(nodes, loop.timers) && Outcomes(old(nodes), old(loop.now), loop.now, nodes))
    {
      hide GoodRun, IsLog, Next, Settled, Exhausted, Outcomes, Reached;
      var again := true;
      while again
        invariant Dispatched() && Passing()
        invariant !again ==> Settled(nodes, loop.timers) && Exhausted(nodes, old(loop.now))
        decreases PendingSet(nodes), again
      {
        var stopped;
        again, stopped := DispatchPass(old(loop.now));
        if stopped { return; }
      }
      DispatchedReaches(old(trace), old(steps), trace, steps);
      ExhaustedOutcome(old(nodes), old(loop.now), loop.now, nodes);
    }

    /** One round of the loop of `Run` under the lock: it returns, or dispatches and parks. */
    method ScheduleRound() returns (r: Round, ghost c: Closing)
      requires Valid() && loop.scheduler.Scheduling?
      modifies this
      ensures r.WriteRefused? || r.ContextEnded? ==> Took(ReturnByError) && (r.WriteRefused? <==> old(loop.failed))
      ensures r.RootEnded? ==> Took(ReturnByRoot(c)) && (r.ok <==> root in old(nodes) && old(nodes)[root].state.Done? && c.Ok())
      ensures r.WaitsForWake? ==> DispatchedAndParked()
      ensures r.WaitsForWake? <==> old(!loop.failed && !loop.ctxDone && RootLive(nodes, root))
    {
      hide GoodRun, IsLog, Next, Close, Settled, Goroutines, ClosingPossible, CloseSet;
      Invariants();
      c := Closing({}, None);
      if loop.failed || loop.ctxDone {
        r := if loop.failed then WriteRefused else ContextEnded;
        ReturnOnError();
      } else if nodes[root].Terminal() {
        var done := nodes[root].state.Done?;
        var closed;
        closed, c := ReturnThroughRoot();
        r := RootEnded(done && closed);
      } else {
        DispatchLocked();
        ParkLoop();
        r := WaitsForWake;
      }
    }

    method ReturnOnError()
      requires Valid() && loop.scheduler.Scheduling? && (loop.failed || loop.ctxDone)
      modifies this
      ensures Took(ReturnByError) && root == old(root)
    {
      hide GoodRun, IsLog, Next;
      loop := loop.(scheduler := ReturnedByError, ctxDone := true);
      LoopIs(old(View()), ReturnByError, View());
      Record(ReturnByError);
    }

    /** The root is terminal: everything is closed and the context ends. */
    method ReturnThroughRoot() returns (closed: bool, ghost c: Closing)
      requires Valid() && CanReturnByRoot(View())
      modifies this
      ensures Took(ReturnByRoot(c)) && closed == c.Ok() && root == old(root)
    {
      hide GoodRun, IsLog, Sent, Ordered, Next, Close, Goroutines, ClosingPossible, CloseSet, NodesOk;
      Invariants();
      ghost var order;
      closed, c, order := CloseLocked(NIL, "root action completed");
      loop := loop.(scheduler := if closed then ReturnedByRoot else ReturnedByError, ctxDone := true);
      CloseIs(old(View()), ReturnByRoot(c), View());
      CloseSends(old(View()), ReturnByRoot(c), order);
      RecordSent(old(log), ReturnByRoot(c), order);
    }

    /** The end of a round: the loop blocks until it is woken or its context ends. */
    method ParkLoop()
      requires Valid() && CanPark(View())
      modifies this
      ensures Took(Park) && loop.scheduler.Parked?
    {
      hide GoodRun, IsLog, Next;
      loop := loop.(scheduler := Parked);
      LoopIs(old(View()), Park, View());
      Record(Park);
    }

    method WakeLoop()
      requires Valid() && loop.scheduler.Parked? && (loop.wake || loop.ctxDone)
      modifies this
      ensures Took(WakeUp)
    {
      hide GoodRun, IsLog, Next;
      loop := loop.(scheduler := Scheduling, wake := false);
      LoopIs(old(View()), WakeUp, View());
      Record(WakeUp);
    }

    // ---- execute ------------------------------------------------------------

    /** The goroutine ends: its context is canceled and a held slot goes back. */
    method ExitTask(t: TaskId)
      requires t in tasks
      modifies this`tasks, pool
      ensures View() == Exit(old(View()), t) && tasks.Keys == old(tasks).Keys
      ensures pool.used == old(pool.used) - (if old(tasks)[t].held then 1 else 0)
    {
      if tasks[t].held { pool.Release(); }
      tasks := tasks[t := tasks[t].(phase := Exited, held := false, canceled := true)];
    }

    /** What a goroutine without a slot knows of itself. */
    lemma HoldsNothing(t: TaskId)
      requires Valid() && t in tasks && !tasks[t].phase.Acquired? && !tasks[t].Attempting()
      ensures !tasks[t].held && tasks[t].node in nodes && Named(View())
    {
      Invariants();
      assert TaskOk(View(), t);
    }

    /** Waits for the node's image, or goes on to the slot pool. */
    method ImageOrSlot(t: TaskId) returns (ok: bool)
      requires t in tasks && tasks[t].node in nodes && !tasks[t].held
      modifies this`nodes, this`tasks, this`loop, this`log, pool
      ensures View() == ImageOrAcquire(old(View()), t, ok) && tasks.Keys == old(tasks).Keys
      ensures log == old(log) + ImageWrites(old(View()), t, ok)
      ensures pool.used == old(pool.used)
    {
      var n := nodes[tasks[t].node];
      ok := true;
      if n.spec.imageKey != [] {
        ok := CommitLocked(tasks[t].node, n.(state := Waiting, waitingOn := ForImage));
        if !ok {
          ExitTask(t);
          return;
        }
        tasks := tasks[t := tasks[t].(phase := Ensuring)];
      } else {
        tasks := tasks[t := tasks[t].(phase := Acquiring)];
      }
    }

    /** The first section of `execute`. */
    method BeginTaskSection(t: TaskId) returns (ghost ok: bool)
      requires Valid() && At(View(), t, Spawned)
      modifies this, pool
      ensures Took(BeginTask(t, ok))
    {
      hide GoodRun, IsLog, Sent, Ordered, Next, ImageOrAcquire, Exit, ImageWrites;
      HoldsNothing(t);
      ok := true;
      var n := nodes[tasks[t].node];
      if !n.state.Ready? || loop.ctxDone {
        ExitTask(t);
      } else if n.spec.cacheKey != [] {
        tasks := tasks[t := tasks[t].(phase := LookingUp)];
      } else {
        ok := ImageOrSlot(t);
      }
      EarlyIs(old(View()), BeginTask(t, ok), View());
      EarlySends(old(View()), BeginTask(t, ok), []);
      RecordSent(old(log), BeginTask(t, ok), []);
    }

    /** Commits a terminal state and, if the store took it, closes the subtree. */
    method CommitAndCloseLocked(id: Id, next: Node, reason: string) returns (ok: bool, ghost c: Closing, ghost order: seq<Id>)
      requires Named(View()) && id in nodes && next.spec == nodes[id].spec
      modifies this`nodes, this`loop, this`tasks, this`log
      ensures log == old(log) + CommitWrites(old(View()), id, next, ok, c, order, reason) && Enumerates(order, c.done)
      ensures View() == CommitAndClose(old(View()), id, next, ok, c, reason)
      ensures ClosesBelow(old(View()), id, next, ok, c)
      ensures tasks.Keys == old(tasks).Keys && nodes.Keys == old(nodes).Keys
    {
      hide Close, ClosingPossible, CloseWrites;
      c, order := Closing({}, None), [];
      ghost var before := nodes;
      ok := CommitLocked(id, next);
      if ok {
        CloseSetKeeps(before, nodes, id);
        var closed;
        closed, c, order := CloseLocked(id, reason);
      }
    }

    /** The goroutine ends with a terminal state of its node. */
    method EndAndClose(t: TaskId, next: Node, reason: string) returns (ok: bool, ghost c: Closing, ghost order: seq<Id>)
      requires Named(View()) && t in tasks && tasks[t].node in nodes && next.spec == nodes[tasks[t].node].spec && !tasks[t].held
      modifies this`nodes, this`loop, this`tasks, this`log, pool
      ensures View() == CommitAndClose(Exit(old(View()), t), old(tasks)[t].node, next, ok, c, reason)
      ensures log == old(log) + CommitWrites(old(View()), old(tasks)[t].node, next, ok, c, order, reason) && Enumerates(order, c.done)
      ensures ClosesBelow(old(View()), old(tasks)[t].node, next, ok, c)
      ensures tasks.Keys == old(tasks).Keys && pool.used == old(pool.used)
    {
      hide CommitAndClose, ClosesBelow;
      var id := tasks[t].node;
      ExitTask(t);
      ghost var left := View();
      ok, c, order := CommitAndCloseLocked(id, next, reason);
      ClosesBelowOfNodes(old(View()), left, id, next, ok, c);
      WritesOfNodes(old(View()), left, id, next, ok, c, order, reason);
    }

    /** What the cache's answer does to the fields. */
    method LookedUpLocked(t: TaskId, found: Lookup) returns (ok: bool, ghost c: Closing, ghost order: seq<Id>)
      requires At(View(), t, LookingUp) && Named(View()) && !tasks[t].held
      modifies this`nodes, this`loop, this`tasks, this`log, pool
      ensures log == old(log) + EarlyWrites(old(View()), LookedUp(t, found, ok, c), order) && Enumerates(order, c.done)
      ensures View() == LookupReturns(old(View()), t, found, ok, c) && tasks.Keys == old(tasks).Keys && pool.used == old(pool.used)
      ensures var s := old(View());
              found.Hit? && !Abandons(s, t) ==> ClosesBelow(s, s.tasks[t].node, HitNode(s.nodes[s.tasks[t].node], found), ok, c)
    {
      hide ImageOrAcquire, Exit, CommitAndClose, ClosesBelow, Named, ImageWrites, CommitWrites;
      ok, c, order := true, Closing({}, None), [];
      var id := tasks[t].node;
      var n := nodes[id];
      if n.Terminal() || loop.ctxDone {
        ExitTask(t);
      } else if found.Hit? {
        n := n.(report := Report(found.output, n.report.error, found.failure.None? || found.failure.value.cacheable));
        if found.failure.Some? {
          n := n.(state := Failed, report := n.report.(error := found.failure.value.message));
        } else {
          n := n.(state := Done, report := n.report.(output := found.output, error := ""));
        }
        ok, c, order := EndAndClose(t, n, "parent action completed");
      } else {
        ok := ImageOrSlot(t);
      }
    }

    /** The cache answered. */
    method LookedUpSection(t: TaskId, found: Lookup) returns (ghost ok: bool, ghost c: Closing)
      requires Valid() && At(View(), t, LookingUp)
      modifies this, pool
      ensures Took(LookedUp(t, found, ok, c))
    {
      hide GoodRun, IsLog, Sent, Ordered, Next, Inv, Goroutines, LookupReturns, ClosesBelow, HitNode, Abandons, Named, EarlyWrites;
      HoldsNothing(t);
      ghost var s := View();
      var accepted;
      ghost var order;
      accepted, c, order := LookedUpLocked(t, found);
      ok := accepted;
      EarlyIs(s, LookedUp(t, found, ok, c), View());
      EarlySends(old(View()), LookedUp(t, found, ok, c), order);
      RecordSent(old(log), LookedUp(t, found, ok, c), order);
    }

    /** What the image builder's answer does to the fields. */
    method EnsuredLocked(t: TaskId, failure: Option<string>) returns (ok: bool, ghost c: Closing, ghost order: seq<Id>)
      requires At(View(), t, Ensuring) && Named(View()) && !tasks[t].held
      modifies this`nodes, this`loop, this`tasks, this`log, pool
      ensures log == old(log) + EarlyWrites(old(View()), Ensured(t, failure, ok, c), order) && Enumerates(order, c.done)
      ensures View() == ImageReturns(old(View()), t, failure, ok, c) && tasks.Keys == old(tasks).Keys && pool.used == old(pool.used)
      ensures var s := old(View());
              failure.Some? && !Abandons(s, t) ==>
                ClosesBelow(s, s.tasks[t].node, ImageFailed(s.nodes[s.tasks[t].node], failure.value), ok, c)
    {
      hide Exit, CommitAndClose, ClosesBelow, Named, CommitWrites;
      ok, c, order := true, Closing({}, None), [];
      var id := tasks[t].node;
      var n := nodes[id];
      if n.Terminal() || loop.ctxDone {
        ExitTask(t);
      } else if failure.Some? {
        n := n.(state := Failed, waitingOn := NoReason, report := n.report.(error := failure.value));
        ok, c, order := EndAndClose(t, n, "parent action failed");
      } else {
        ok := CommitLocked(id, n.(state := Ready, waitingOn := NoReason));
        if ok { tasks := tasks[t := tasks[t].(phase := Acquiring)]; } else { ExitTask(t); }
      }
    }

    /** The image builder answered. */
    method EnsuredSection(t: TaskId, failure: Option<string>) returns (ghost ok: bool, ghost c: Closing)
      requires Valid() && At(View(), t, Ensuring)
      modifies this, pool
      ensures Took(Ensured(t, failure, ok, c))
    {
      hide GoodRun, IsLog, Sent, Ordered, Next, Inv, Goroutines, ImageReturns, ClosesBelow, ImageFailed, Abandons, Named, EarlyWrites;
      HoldsNothing(t);
      ghost var s := View();
      var accepted;
      ghost var order;
      accepted, c, order := EnsuredLocked(t, failure);
      ok := accepted;
      EarlyIs(s, Ensured(t, failure, ok, c), View());
      EarlySends(old(View()), Ensured(t, failure, ok, c), order);
      RecordSent(old(log), Ensured(t, failure, ok, c), order);
    }

    /** The pool let the goroutine in. */
    method AcquireSection(t: TaskId)
      requires Valid() && At(View(), t, Acquiring) && pool.used < pool.capacity
      modifies this, pool
      ensures Took(Acquire(t))
    {
      hide GoodRun, IsLog, Next;
      pool.Acquire();
      tasks := tasks[t := tasks[t].(phase := Acquired, held := true)];
      LateIs(old(View()), Acquire(t), View());
      Record(Acquire(t));
    }

    /** The context ended before the pool let the goroutine in. */
    method AcquireAbortedSection(t: TaskId)
      requires Valid() && At(View(), t, Acquiring) && loop.ctxDone
      modifies this, pool
      ensures Took(AcquireAborted(t))
    {
      hide GoodRun, IsLog, Next;
      HoldsNothing(t);
      ExitTask(t);
      EarlyIs(old(View()), AcquireAborted(t), View());
      Record(AcquireAborted(t));
    }

    lemma HoldsSlot(t: TaskId)
      requires Valid() && t in tasks && tasks[t].phase.Acquired?
      ensures tasks[t].held
    {
      Invariants();
      assert TaskOk(View(), t);
    }

    /** What starting an attempt does to the fields. */
    method LaunchLocked(t: TaskId) returns (ok: bool)
      requires At(View(), t, Acquired) && tasks[t].held
      modifies this`nodes, this`loop, this`tasks, this`active, this`book, this`log, pool
      ensures View() == StartAttempt(old(View()), t, ok) && tasks.Keys == old(tasks).Keys && book.root == old(book.root)
      ensures log == old(log) + LateWrites(old(View()), Launch(t, ok), [])
      ensures pool.used == old(pool.used) - Releases(old(View()), Launch(t, ok))
    {
      hide Charged, Exit, Rejected, Releases, LateWrites;
      ok := true;
      LaunchReleases(View(), t, ok);
      LaunchWrites(View(), t, ok);
      var id := tasks[t].node;
      var n := nodes[id];
      if !n.state.Ready? || loop.ctxDone {
        ExitTask(t);
        return;
      }
      ok := CommitLocked(id, n.(state := Running, attempt := n.attempt + 1, nextAttemptAt := 0));
      LaunchReleases(old(View()), t, ok);
      LaunchWrites(old(View()), t, ok);
      if !ok {
        ExitTask(t);
        return;
      }
      active := active[id := t];
      tasks := tasks[t := tasks[t].(phase := InRunner, number := n.attempt + 1)];
      book := book.(ledger := Charged(book.ledger, id));
    }

    /** The section that starts an attempt. */
    method LaunchSection(t: TaskId) returns (ghost ok: bool)
      requires Valid() && At(View(), t, Acquired)
      modifies this, pool
      ensures Took(Launch(t, ok))
    {
      hide GoodRun, IsLog, Sent, Ordered, Next, Inv, StartAttempt, Releases, LateWrites;
      HoldsSlot(t);
      ghost var s := View();
      var accepted := LaunchLocked(t);
      ok := accepted;
      LateIs(s, Launch(t, ok), View());
      LateSends(old(View()), Launch(t, ok), []);
      RecordSent(old(log), Launch(t, ok), []);
    }

    /** The runner, and the cache if it was asked to store the result, came back. */
    method ReturnSection(t: TaskId, output: Bytes, failure: Option<Failure>)
      requires Valid() && At(View(), t, InRunner)
      modifies this
      ensures Took(Return(t, output, failure))
    {
      hide GoodRun, IsLog, Next;
      tasks := tasks[t := tasks[t].(phase := Returned, output := output, failure := failure)];
      LateIs(old(View()), Return(t, output, failure), View());
      Record(Return(t, output, failure));
    }

    /** The slot goes back and the attempt record is removed. */
    method LeaveAttempt(t: TaskId)
      requires At(View(), t, Returned)
      modifies this`tasks, this`active, pool
      ensures View() == Leave(old(View()), t) && tasks.Keys == old(tasks).Keys
      ensures pool.used == old(pool.used) - (if old(tasks)[t].held then 1 else 0)
    {
      active := active - {tasks[t].node};
      ExitTask(t);
    }

    /** The node of a finished attempt that will be retried. */
    method RetryLocked(id: Id, next: Node) returns (accepted: bool)
      requires next.state.Pending? && id in nodes
      modifies this`nodes, this`loop, this`book, this`log
      ensures View() == if accepted then Retry(old(View()), id, next) else Rejected(old(View()))
      ensures log == old(log) + One(old(View()), id, next, accepted)
      ensures accepted ==> !old(loop.failed)
      ensures book.root == old(book.root)
    {
      accepted := CommitLocked(id, next);
      if accepted {
        loop := loop.(timers := loop.timers + {Timer(id, next.attempt, next.nextAttemptAt)});
        book := book.(ledger := Postponed(book.ledger, id, next.nextAttemptAt));
      }
    }

    /** What the closing section does to the fields. */
    method FinishLocked(t: TaskId) returns (ok: bool, ghost c: Closing, ghost order: seq<Id>)
      requires At(View(), t, Returned) && Named(View())
      modifies this`nodes, this`loop, this`tasks, this`active, this`book, this`log, pool
      ensures log == old(log) + LateWrites(old(View()), FinishTask(t, ok, c), order) && Enumerates(order, c.done)
      ensures View() == Finish(old(View()), t, ok, c) && tasks.Keys == old(tasks).Keys && book.root == old(book.root)
      ensures var s := old(View());
              AttemptStands(s, t) && !OutcomeOf(s, t).state.Pending? ==> ClosesBelow(s, s.tasks[t].node, OutcomeOf(s, t), ok, c)
      ensures pool.used == old(pool.used) - (if old(tasks)[t].held then 1 else 0)
    {
      hide Leave, CommitAndClose, ClosesBelow, Retry, Outcome, Named, CommitWrites;
      ok, c, order := true, Closing({}, None), [];
      var id, task := tasks[t].node, tasks[t];
      ghost var s := View();
      LeaveAttempt(t);
      ghost var left := View();
      LeftNamed(s, t);
      var n := nodes[id];
      if !loop.ctxDone && !n.Terminal() && n.attempt == task.number {
        n := FinishedNode(n, task.output, task.failure, loop.now);
        if n.state.Pending? {
          ok := RetryLocked(id, n);
        } else {
          ok, c, order := CommitAndCloseLocked(id, n, "parent action completed");
          ClosesBelowOfNodes(s, left, id, n, ok, c);
          WritesOfNodes(s, left, id, n, ok, c, order, "parent action completed");
        }
      }
    }

    /** The closing section of `execute`. */
    method FinishSection(t: TaskId) returns (ghost ok: bool, ghost c: Closing)
      requires Valid() && At(View(), t, Returned) && tasks[t].resumer.None?
      modifies this, pool
      ensures Took(FinishTask(t, ok, c))
    {
      hide GoodRun, IsLog, Sent, Ordered, Next, Inv, Goroutines, ClosesBelow, Finish, Named, AttemptStands, OutcomeOf, LateWrites;
      Invariants();
      ghost var s := View();
      var accepted;
      ghost var order;
      accepted, c, order := FinishLocked(t);
      ok := accepted;
      LateIs(s, FinishTask(t, ok, c), View());
      LateSends(old(View()), FinishTask(t, ok, c), order);
      RecordSent(old(log), FinishTask(t, ok, c), order);
    }

    // ---- Add, Wait, resume --------------------------------------------------

    /** The parent attempt a caller names is the one in progress. */
    predicate IsActive(parent: Id, attempt: int)
      reads this
      ensures IsActive(parent, attempt) <==> ParentActive(View(), parent, attempt)
    {
      parent in nodes && nodes[parent].attempt == attempt && parent in active && !nodes[parent].Terminal()
    }

    /** A new child joins the graph. */
    method AddLocked(parent: Id, id: Id, node: Node)
      modifies this`nodes, this`loop, this`book
      ensures View() == Add(old(View()), parent, id, node) && book.root == old(book.root)
    {
      var child := node.(spec := node.spec.(parent := Some(parent)));
      nodes := nodes[id := child];
      if child.state.Pending? && loop.now < child.nextAttemptAt {
        loop := loop.(timers := loop.timers + {Timer(id, child.attempt, child.nextAttemptAt)});
      }
      loop := loop.(wake := true);
      book := book.(ledger := book.ledger[id := NewLedger(child)]);
    }

    /** `Add`: a known child of the same parent is accepted again and changes nothing. */
    method AddSection(callerCanceled: bool, parent: Id, attempt: int, id: Id, node: Node) returns (a: Answer)
      requires Valid()
      modifies this
      ensures a.Accept? <==> old(!callerCanceled && !loop.failed && IsActive(parent, attempt)
                                 && (id in nodes ==> nodes[id].spec.parent == Some(parent)))
      ensures if a.Accept? && id !in old(nodes) then Taken(AddNode(parent, attempt, id, node))
              else Valid() && View() == old(View()) && steps == old(steps)
    {
      hide GoodRun, IsLog, Next, Add;
      if callerCanceled { return Refused("context canceled"); }
      if loop.failed { return Refused("write refused"); }
      if !IsActive(parent, attempt) { return Refused("parent attempt is not active"); }
      if id in nodes {
        if nodes[id].spec.parent != Some(parent) { return Refused("node belongs to another parent"); }
        return Accept;
      }
      ghost var s := View();
      AddLocked(parent, id, node);
      AddIs(s, AddNode(parent, attempt, id, node), View());
      Record(AddNode(parent, attempt, id, node));
      return Accept;
    }

    /** The caller is counted as a waiter; a parent that holds its slot gives it back first. */
    method CountWaiter(k: CallId, parent: Id, attempt: int, child: Id) returns (accepted: bool)
      requires CanWait(View(), k, parent, attempt, child) && !nodes[child].Terminal() && Named(View())
      modifies this`nodes, this`loop, this`tasks, this`calls, this`log, pool
      ensures View() == WaitBegins(old(View()), k, parent, attempt, child, accepted)
      ensures log == old(log) + WaitWrites(old(View()), WaitStart(k, parent, attempt, child, accepted))
      ensures tasks.Keys == old(tasks).Keys && (accepted <==> k in calls)
      ensures pool.used == old(pool.used) - (if old(tasks)[active[parent]].held && accepted then 1 else 0)
      ensures old(tasks)[active[parent]].held && old(loop.failed) ==> !accepted
    {
      accepted := true;
      var t := active[parent];
      if tasks[t].held {
        accepted := CommitLocked(parent, nodes[parent].(state := Waiting, waitingOn := ForChildren));
        if !accepted { return; }
        pool.Release();
      }
      tasks := tasks[t := tasks[t].(held := false, waiters := tasks[t].waiters + 1)];
      calls := calls[k := Call(parent, attempt, t, child, Counted)];
    }

    /** What waiting does to the fields. */
    method WaitLocked(k: CallId, parent: Id, attempt: int, child: Id) returns (ok: bool)
      requires CanWait(View(), k, parent, attempt, child) && Named(View())
      modifies this`nodes, this`loop, this`tasks, this`calls, this`log, pool
      ensures View() == WaitBegins(old(View()), k, parent, attempt, child, ok)
      ensures log == old(log) + WaitWrites(old(View()), WaitStart(k, parent, attempt, child, ok))
      ensures tasks.Keys == old(tasks).Keys && (ok <==> k in calls)
      ensures pool.used == old(pool.used) - Releases(old(View()), WaitStart(k, parent, attempt, child, ok))
    {
      hide Counting, Named;
      ok := true;
      if nodes[child].Terminal() {
        calls := calls[k := Call(parent, attempt, active[parent], child, NeedMutex)];
      } else {
        ok := CountWaiter(k, parent, attempt, child);
      }
    }

    /** `Wait` up to the point where it blocks or goes on to `resume`. */
    method WaitSection(k: CallId, parent: Id, attempt: int, child: Id) returns (a: Answer, ok: bool)
      requires Valid() && k !in calls
      modifies this, pool
      ensures if old(IsActive(parent, attempt) && child in nodes && nodes[child].spec.parent == Some(parent))
              then Took(WaitStart(k, parent, attempt, child, ok)) && (a.Accept? <==> k in calls)
              else a.Refused? && Valid() && View() == old(View()) && steps == old(steps) && pool.used == old(pool.used)
    {
      hide GoodRun, IsLog, Sent, Ordered, Next, Inv, Goroutines, WaitBegins, Releases, WaitWrites;
      ok := true;
      if !IsActive(parent, attempt) { return Refused("parent attempt is not active"), ok; }
      if child !in nodes || nodes[child].spec.parent != Some(parent) {
        return Refused("node is not a child of this parent"), ok;
      }
      Invariants();
      ghost var s := View();
      ok := WaitLocked(k, parent, attempt, child);
      a := if ok then Accept else Refused("write refused");
      CallIs(s, WaitStart(k, parent, attempt, child, ok), View());
      CallSends(old(View()), WaitStart(k, parent, attempt, child, ok));
      RecordSent(old(log), WaitStart(k, parent, attempt, child, ok), []);
    }

    /** A blocked `Wait` is over: the child ended or a context did. */
    method UnblockSection(k: CallId, callerCanceled: bool)
      requires Valid() && CanUnblock(View(), k, callerCanceled)
      modifies this
      ensures Taken(WaitEnd(k, callerCanceled))
    {
      hide GoodRun, IsLog, Next, Over;
      var t := calls[k].task;
      tasks := tasks[t := tasks[t].(waiters := tasks[t].waiters - 1)];
      loop := loop.(wake := true);
      calls := calls[k := calls[k].(phase := CallPhase.NeedMutex)];
      CallIs(old(View()), WaitEnd(k, callerCanceled), View());
      Record(WaitEnd(k, callerCanceled));
    }

    /** `resume` takes the attempt's mutex. */
    method LockSection(k: CallId)
      requires Valid() && CallAt(View(), k, NeedMutex) && tasks[calls[k].task].resumer.None?
      modifies this
      ensures Taken(Lock(k))
    {
      hide GoodRun, IsLog, Next;
      var t := calls[k].task;
      tasks := tasks[t := tasks[t].(resumer := Some(k))];
      calls := calls[k := calls[k].(phase := Draining)];
      CallIs(old(View()), Lock(k), View());
      Record(Lock(k));
    }

    /** No waiter is left, or the attempt is over. */
    method DrainSection(k: CallId)
      requires Valid() && CallAt(View(), k, Draining) && (tasks[calls[k].task].waiters == 0 || Over(View(), calls[k].task))
      modifies this
      ensures Taken(Drain(k))
    {
      hide GoodRun, IsLog, Next;
      calls := calls[k := calls[k].(phase := Rechecking)];
      CallIs(old(View()), Drain(k), View());
      Record(Drain(k));
    }

    /** Leaves `resume` and gives the mutex back. */
    method LeaveResume(k: CallId)
      requires k in calls && calls[k].task in tasks
      modifies this`tasks, this`calls
      ensures View() == Resumed(old(View()), k) && tasks.Keys == old(tasks).Keys
    {
      var t := calls[k].task;
      tasks := tasks[t := tasks[t].(resumer := None)];
      calls := calls - {k};
    }

    /** What the second look of `resume` does to the fields. */
    method RecheckLocked(k: CallId) returns (again: bool)
      requires CallAt(View(), k, Rechecking) && Named(View())
      modifies this`calls, this`tasks
      ensures View() == Recheck(old(View()), k) && tasks.Keys == old(tasks).Keys && (again <==> k in calls)
    {
      hide Named;
      var call := calls[k];
      again := !loop.failed && IsActive(call.parent, call.attempt) && active[call.parent] == call.task
               && !loop.ctxDone && !tasks[call.task].canceled && !tasks[call.task].held;
      if again { calls := calls[k := call.(phase := Reacquiring)]; } else { LeaveResume(k); }
    }

    method CheckAgainSection(k: CallId) returns (again: bool)
      requires Valid() && CallAt(View(), k, Rechecking)
      modifies this
      ensures Taken(CheckAgain(k)) && (again <==> k in calls)
    {
      hide GoodRun, IsLog, Next, Inv, Goroutines, Recheck, Named;
      Invariants();
      ghost var s := View();
      again := RecheckLocked(k);
      CallIs(s, CheckAgain(k), View());
      Record(CheckAgain(k));
    }

    method ReacquireSection(k: CallId)
      requires Valid() && CallAt(View(), k, Reacquiring) && pool.used < pool.capacity
      modifies this, pool
      ensures Took(Reacquire(k))
    {
      hide GoodRun, IsLog, Next;
      pool.Acquire();
      calls := calls[k := calls[k].(phase := GotSlot)];
      CallIs(old(View()), Reacquire(k), View());
      Record(Reacquire(k));
    }

    method ReacquireAbortedSection(k: CallId)
      requires Valid() && CallAt(View(), k, Reacquiring) && Over(View(), calls[k].task)
      modifies this
      ensures Taken(ReacquireAborted(k))
    {
      hide GoodRun, IsLog, Next;
      LeaveResume(k);
      CallIs(old(View()), ReacquireAborted(k), View());
      Record(ReacquireAborted(k));
    }

    lemma HoldingIs(s: Exec, k: CallId)
      requires CallAt(s, k, GotSlot)
      ensures var t := s.calls[k].task;
              Resumed(s.(tasks := s.tasks[t := s.tasks[t].(held := true)]), k) == Holding(s, k)
              && Holding(s, k).nodes == s.nodes && Holding(s, k).loop == s.loop
    {
    }

    /** What restoring an attempt does to the fields. */
    method RestoreLocked(k: CallId) returns (ok: bool)
      requires CallAt(View(), k, GotSlot) && calls[k].parent in nodes
      modifies this`nodes, this`loop, this`tasks, this`calls, this`log, pool
      ensures View() == Reclaim(old(View()), k, ok) && tasks.Keys == old(tasks).Keys
      ensures log == old(log) + WaitWrites(old(View()), Restore(k, ok))
      ensures pool.used == old(pool.used) - Releases(old(View()), Restore(k, ok))
    {
      hide Resumed, WaitWrites;
      ok := true;
      ghost var before := View();
      var call := calls[k];
      var parent, t := call.parent, call.task;
      if parent !in active || active[parent] != t || nodes[parent].Terminal() || loop.ctxDone || tasks[t].canceled {
        pool.Release();
        LeaveResume(k);
      } else {
        tasks := tasks[t := tasks[t].(held := true)];
        LeaveResume(k);
        HoldingIs(before, k);
        ok := CommitLocked(parent, nodes[parent].(state := Running, waitingOn := NoReason));
      }
      RestoreWrites(before, k, ok);
    }

    /** The last section of `resume`: the slot becomes the attempt's, or goes back. */
    method RestoreSection(k: CallId) returns (ghost ok: bool)
      requires Valid() && CallAt(View(), k, GotSlot) && calls[k].parent in nodes
      modifies this, pool
      ensures Took(Restore(k, ok))
    {
      hide GoodRun, IsLog, Sent, Ordered, Next, Reclaim, Releases, WaitWrites;
      ghost var s := View();
      var accepted := RestoreLocked(k);
      ok := accepted;
      CallIs(s, Restore(k, ok), View());
      CallSends(old(View()), Restore(k, ok));
      RecordSent(old(log), Restore(k, ok), []);
    }

    // ---- Cancellation, timers, the clock and the context ---------------------

    /** `CancelSubtree` of a known node. */
    method CancelSubtreeSection(id: Id) returns (found: bool, ghost ok: bool, ghost c: Closing)
      requires Valid()
      modifies this
      ensures found <==> id in old(nodes)
      ensures if found then Taken(CancelTree(id, ok, c)) else Valid() && View() == old(View()) && steps == old(steps)
    {
      hide GoodRun, IsLog, Sent, Ordered, Next, Inv, Goroutines, Close, CommitAndClose, ClosesBelow, CancelAttempt, CancelWrites, ClosingWrites, CommitWrites;
      found, ok, c := id in nodes, true, Closing({}, None);
      if !found { return; }
      Invariants();
      var n := nodes[id];
      ghost var s := View();
      ghost var order;
      if n.Terminal() {
        var closed;
        closed, c, order := CloseLocked(id, "ancestor canceled");
      } else {
        CancelAttemptOf(id);
        CanceledNamed(s, id);
        ok, c, order := CommitAndCloseLocked(id, n.(state := Canceled, report := n.report.(error := "action canceled")), "ancestor canceled");
        ClosesBelowOfNodes(s, CancelAttempt(s, id), id, CanceledAction(n), ok, c);
        WritesOfNodes(s, CancelAttempt(s, id), id, CanceledAction(n), ok, c, order, "ancestor canceled");
      }
      CancelTreeWrites(s, id, ok, c, order);
      CloseIs(s, CancelTree(id, ok, c), View());
      CloseSends(s, CancelTree(id, ok, c), order);
      RecordSent(old(log), CancelTree(id, ok, c), order);
    }

    /** `Cancel` of a running executor. */
    method CancelSection() returns (ghost c: Closing)
      requires Valid()
      modifies this
      ensures Taken(CancelAll(c)) && loop.ctxDone
    {
      hide GoodRun, IsLog, Sent, Ordered, Next, Inv, Goroutines, Close, ClosingPossible, CloseSet;
      Invariants();
      var closed;
      ghost var order;
      closed, c, order := CloseLocked(NIL, "run canceled");
      loop := loop.(ctxDone := true);
      CloseIs(old(View()), CancelAll(c), View());
      CloseSends(old(View()), CancelAll(c), order);
      RecordSent(old(log), CancelAll(c), order);
    }

    /** A timer fired: it wakes the loop if the node still waits for that attempt's retry. */
    method TimerSection(timer: Timer)
      requires Valid() && timer in loop.timers && timer.at <= loop.now && !loop.ctxDone
      modifies this
      ensures Taken(Fire(timer))
    {
      hide GoodRun, IsLog, Next;
      loop := loop.(timers := loop.timers - {timer});
      if timer.id in nodes && nodes[timer.id].attempt == timer.attempt && nodes[timer.id].state.Pending? {
        loop := loop.(wake := true);
      }
      ClockIs(old(View()), Fire(timer), View());
      Record(Fire(timer));
    }

    method DropTimerSection(timer: Timer)
      requires Valid() && timer in loop.timers && loop.ctxDone
      modifies this
      ensures Taken(DropTimer(timer))
    {
      hide GoodRun, IsLog, Next;
      loop := loop.(timers := loop.timers - {timer});
      LoopIs(old(View()), DropTimer(timer), View());
      Record(DropTimer(timer));
    }

    /** The caller's context ends. */
    method EndContextSection()
      requires Valid()
      modifies this
      ensures Taken(EndContext)
    {
      hide GoodRun, IsLog, Next;
      loop := loop.(ctxDone := true);
      LoopIs(old(View()), EndContext, View());
      Record(EndContext);
    }
  }

  /** A pass has looked at node `id`, and failed it or not. */
  function PassedOver(s: Exec, id: Id, failed: bool): Exec
    requires id in s.nodes
  {
    if failed then Wrote(s, id, FailedPrerequisite(s.nodes[id])) else s
  }

  /** What is known after the first `i` prerequisites. */
  predicate Seen(nodes: Nodes, id: Id, entries: seq<Id>, i: nat, ready: bool, failed: bool)
    requires i <= |entries|
  {
    && (ready <==> forall k :: 0 <= k < i ==> entries[k] in nodes && nodes[entries[k]].state.Done?)
    && (!failed ==> forall k :: 0 <= k < i ==> !Lost(nodes, entries[k]))
    && (failed ==> !ready)
    && (failed <==> LostEntries(nodes, id, entries[..i]) >= 1)
  }

  lemma SeenNothing(nodes: Nodes, id: Id, entries: seq<Id>)
    ensures Seen(nodes, id, entries, 0, true, false) && LostEntries(nodes, id, entries[..0]) == 0
  {
  }

  lemma SeenLost(nodes: Nodes, id: Id, entries: seq<Id>, i: nat, ready: bool, failed: bool)
    requires i <= |entries| && Seen(nodes, id, entries, i, ready, failed)
    ensures failed <==> LostEntries(nodes, id, entries[..i]) >= 1
  {
  }

  /** Looking at one more entry, of which a lost one fails the node. */
  lemma SeenNext(before: Nodes, after: Nodes, id: Id, entries: seq<Id>, i: nat, ready: bool, failed: bool)
    requires i < |entries| && Seen(before, id, entries, i, ready, failed) && id in before && (if failed then before[id].state.Failed? else !before[id].Terminal())
    requires var lost := Lost(before, entries[i]);
             if lost then id in after && after[id].state.Failed? && after == before[id := after[id]] && !before[id].state.Done?
             else after == before
    ensures var done := entries[i] in before && before[entries[i]].state.Done?;
            Seen(after, id, entries, i + 1, ready && done, failed || Lost(before, entries[i]))
    ensures LostEntries(after, id, entries[..i + 1]) == LostEntries(before, id, entries[..i + 1])
    ensures LostEntries(before, id, entries[..i + 1]) == LostEntries(before, id, entries[..i]) + (if Lost(before, entries[i]) then 1 else 0)
  {
    OneMoreEntry(before, id, entries, i);
    if Lost(before, entries[i]) { FailedEntries(before, after, id, entries[..i + 1]); }
    hide LostEntries;
  }

  lemma SeenAll(nodes: Nodes, id: Id, entries: seq<Id>, ready: bool, failed: bool)
    requires Seen(nodes, id, entries, |entries|, ready, failed)
    ensures ready <==> AllDone(nodes, entries)
    ensures !failed ==> forall p :: p in entries ==> !Lost(nodes, p)
    ensures failed ==> !ready
  {
    hide LostEntries, Lost;
  }

  lemma OneMoreEntry(nodes: Nodes, id: Id, prerequisites: seq<Id>, i: nat)
    requires i < |prerequisites|
    ensures var before := LostEntries(nodes, id, prerequisites[..i]);
            LostEntries(nodes, id, prerequisites[..i + 1]) == before + (if LostHere(nodes, id, prerequisites[i], before) then 1 else 0)
    ensures LostEntries(nodes, id, prerequisites[..i + 1]) <= LostEntries(nodes, id, prerequisites)
  {
    assert prerequisites[..i + 1][..i] == prerequisites[..i];
    PrefixHasFewer(nodes, id, prerequisites, i + 1);
  }

  lemma CanceledNamed(s: Exec, id: Id)
    requires Named(s)
    ensures var s' := CancelAttempt(s, id); Named(s') && s'.nodes == s.nodes && s'.loop == s.loop && s'.book == s.book
  {
  }

  lemma LeftNamed(s: Exec, t: TaskId)
    requires At(s, t, Returned) && Named(s)
    ensures var s' := Leave(s, t); Named(s') && s'.nodes == s.nodes && s'.loop == s.loop && s'.book == s.book
  {
  }

  /** What an attempt makes of its node. */
  method FinishedNode(n: Node, output: Bytes, failure: Option<Failure>, now: Time) returns (next: Node)
    ensures next == Outcome(n, output, failure, now) && next.spec == n.spec
  {
    next := n.(waitingOn := NoReason, report := n.report.(output := output));
    if failure.None? {
      next := next.(state := Done, report := next.report.(error := ""));
    } else {
      next := next.(failures := n.failures + 1, report := next.report.(error := failure.value.message));
      if !failure.value.cacheable && next.failures < Max(n.spec.maxAttempts, 1) {
        next := next.(state := Pending, waitingOn := ForRetry, nextAttemptAt := now + Backoff(next.failures));
      } else {
        next := next.(state := Failed);
      }
    }
  }

  /** Nor does what it sends. */
  lemma WritesOfNodes(s: Exec, s': Exec, id: Id, next: Node, ok: bool, c: Closing, order: seq<Id>, reason: string)
    requires s'.nodes == s.nodes && s'.loop == s.loop
    ensures CommitWrites(s', id, next, ok, c, order, reason) == CommitWrites(s, id, next, ok, c, order, reason)
  {
  }

  /** What a close covers does not depend on goroutines. */
  lemma ClosesBelowOfNodes(s: Exec, s': Exec, id: Id, next: Node, ok: bool, c: Closing)
    requires s'.nodes == s.nodes && s'.loop == s.loop && ClosesBelow(s', id, next, ok, c)
    ensures ClosesBelow(s, id, next, ok, c)
  {
  }

  lemma CloseSetKeeps(before: Nodes, after: Nodes, id: Id)
    requires SameLinks(before, after)
    ensures CloseSet(before, id) == CloseSet(after, id)
  {
    SameLinksSameDescendants(before, after, id);
  }

  function PendingSet(nodes: Nodes): set<Id> {
    set id | id in nodes && nodes[id].state.Pending?
  }

  /** Making one node ready disturbs no other node; failing one leaves fewer pending. */
  lemma LookedAtPasses(before: Nodes, after: Nodes, timers: set<Timer>, since: Time, id: Id, propagated: bool)
    requires id in before && id in after && after == before[id := after[id]]
    requires if propagated then before[id].state.Pending? && after[id].state.Failed?
             else after[id] == before[id] || (before[id].state.Pending? && after[id] == MadeReady(before[id]))
    ensures after.Keys == before.Keys && PendingSet(after) <= PendingSet(before)
    ensures propagated ==> PendingSet(after) < PendingSet(before)
    ensures !propagated ==> forall x :: x in before && x != id && Rests(before, timers, since, x) ==> Rests(after, timers, since, x)
  {
    if propagated { assert id in PendingSet(before) && id !in PendingSet(after); }
  }

  lemma RestsSettle(nodes: Nodes, timers: set<Timer>, since: Time)
    requires forall x :: x in nodes ==> Rests(nodes, timers, since, x)
    ensures Settled(nodes, timers) && Exhausted(nodes, since)
  {
  }

  /** Nothing is left to do for a node: it is not pending, its timer is set because it was
      not due by `since`, or it is blocked. */
  predicate Rests(nodes: Nodes, timers: set<Timer>, since: Time, id: Id)
    requires id in nodes
  {
    nodes[id].state.Pending? ==> (TimerFor(nodes, id) in timers && since < nodes[id].nextAttemptAt) || Blocked(nodes, id)
  }

  /** The steps a dispatch added to the history are a run of their own. */
  lemma DispatchedReaches(t: seq<Exec>, u: seq<Step>, trace: seq<Exec>, steps: seq<Step>)
    requires GoodRun(t, u) && GoodRun(trace, steps) && |t| > 0 && |u| <= |steps| && |t| <= |trace|
    requires steps[..|u|] == u && trace[..|t|] == t && forall i :: |u| <= i < |steps| ==> Dispatching(steps[i])
    ensures Reached(t[|t| - 1].nodes, trace[|trace| - 1].loop.now, trace[|trace| - 1].nodes)
  {
    hide Next, Reached, Tree;
    var tail, taken := trace[|t| - 1..], steps[|u|..];
    forall i | 0 <= i < |taken| ensures Next(tail[i], taken[i], tail[i + 1]) {
      NthStep(trace, steps, |u| + i);
    }
    assert IsRun(tail, taken);
    RunReaches(tail, taken, |taken|);
    assert tail[0] == t[|t| - 1];
  }

  lemma CloseSetExists(nodes: Nodes, parent: Id)
    ensures CloseSet(nodes, parent) <= nodes.Keys
  {
  }

  /** What the loop of a close finds at a node it has not reached. */
  lemma CloseLeaves(s: Exec, c: Closing, id: Id, reason: string)
    requires id in s.nodes && id !in c.done
    ensures id in Close(s, c, reason).nodes && Close(s, c, reason).nodes[id] == s.nodes[id]
    ensures c.Ok() ==> Close(s, c, reason).loop.failed == s.loop.failed
  {
  }

  lemma CloseEnds(s: Exec, done: set<Id>, id: Id, reason: string)
    requires Named(s) && id in s.nodes && id !in done && (s.loop.failed ==> done == {})
    ensures var m := Close(s, Closing(done, None), reason);
            Commit(CancelAttempt(m, id), id, CanceledNode(s.nodes[id], reason), false) == Close(s, Closing(done, Some(id)), reason)
  {
    hide Close, CancelAttempt;
    if s.loop.failed {
      CloseNothing(s, reason);
      CloseRefused(s, id, reason);
    } else {
      CloseStops(s, done, id, reason);
    }
  }

  method Later(t: Time) returns (t': Time)
    ensures t <= t'
  {
    t' :| t <= t';
  }

  function LastOf(snapshot: seq<(Id, Node)>): Nodes {
    if snapshot == [] then map[]
    else LastOf(snapshot[..|snapshot| - 1])[snapshot[|snapshot| - 1].0 := snapshot[|snapshot| - 1].1]
  }

  predicate Unique(snapshot: seq<(Id, Node)>) {
    forall i, j :: 0 <= i < j < |snapshot| ==> snapshot[i].0 != snapshot[j].0
  }

  lemma {:induction false} LastOfKeys(snapshot: seq<(Id, Node)>, id: Id)
    ensures id in LastOf(snapshot) <==> exists i :: 0 <= i < |snapshot| && snapshot[i].0 == id
  {
    if snapshot != [] {
      var n := |snapshot| - 1;
      LastOfKeys(snapshot[..n], id);
      if id in LastOf(snapshot[..n]) {
        var i :| 0 <= i < n && snapshot[..n][i].0 == id;
        assert snapshot[i].0 == id;
      }
      if i :| 0 <= i < |snapshot| && snapshot[i].0 == id {
        assert i == n || snapshot[..n][i].0 == id;
      }
    }
  }

  lemma UniqueExtends(snapshot: seq<(Id, Node)>)
    requires snapshot != []
    ensures var n := |snapshot| - 1;
            Unique(snapshot) <==> Unique(snapshot[..n]) && snapshot[n].0 !in LastOf(snapshot[..n])
  {
    var n := |snapshot| - 1;
    LastOfKeys(snapshot[..n], snapshot[n].0);
  }
}
