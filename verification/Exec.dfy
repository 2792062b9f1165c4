/** The graph executor as a state machine. Each step is one lock-held section of the
    executor, one wait on the slot pool, or one event from outside. The answers of the
    store, the cache, the image builder and the runner are parameters of the steps. */
module Exec {
  import opened Base
  import opened Graph

  type TaskId = nat
  type CallId = nat

  datatype Failure = Failure(message: string, cacheable: bool)

  /** Where an `execute` goroutine is. */
  datatype Phase = Spawned | LookingUp | Ensuring | Acquiring | Acquired | InRunner | Returned | Exited

  /** One `execute` goroutine with the attempt record it shares with `Wait` and `resume`.
      `resumer` is the call that owns the attempt's resume mutex. */
  datatype Task = Task(
    node: Id,
    phase: Phase,
    number: int,
    held: bool,
    waiters: int,
    canceled: bool,
    resumer: Option<CallId>,
    output: Bytes,
    failure: Option<Failure>)
  {
    /** The runner has the attempt, or has just handed it back. */
    predicate Attempting() {
      phase.InRunner? || phase.Returned?
    }

    predicate Alive() {
      !phase.Exited?
    }
  }

  /** Where a `Wait` call is: counted as a waiter, or somewhere inside `resume`. */
  datatype CallPhase = Counted | NeedMutex | Draining | Rechecking | Reacquiring | GotSlot

  datatype Call = Call(parent: Id, attempt: int, task: TaskId, child: Id, phase: CallPhase) {
    predicate OwnsMutex() {
      !phase.Counted? && !phase.NeedMutex?
    }
  }

  datatype Timer = Timer(id: Id, attempt: int, at: Time)

  datatype Scheduler = Scheduling | Parked | ReturnedByRoot | ReturnedByError

  /** Instrumentation of one node: how often it was given to the runner, the failures it
      came with, and the earliest time its current retry may start. */
  datatype Ledger = Ledger(runs: nat, base: int, notBefore: Time)

  /** What the scheduler loop and the run's context hold. */
  datatype Loop = Loop(now: Time, timers: set<Timer>, wake: bool, scheduler: Scheduler, ctxDone: bool, failed: bool)

  /** The root, and instrumentation: the last goroutine started for each node and its account. */
  datatype Book = Book(root: Id, worker: map<Id, TaskId>, ledger: map<Id, Ledger>)

  datatype Exec = Exec(
    nodes: Nodes,
    active: map<Id, TaskId>,
    tasks: map<TaskId, Task>,
    calls: map<CallId, Call>,
    loop: Loop,
    book: Book)

  const SECOND: nat := 1_000_000_000

  function Pow2(n: nat): nat {
    if n == 0 then 1 else 2 * Pow2(n - 1)
  }

  /** One second, doubling with each failure up to 64 seconds. */
  function Backoff(failures: int): nat {
    SECOND * Pow2(Min(Max(failures - 1, 0), 6))
  }

  // ---- Committing -----------------------------------------------------------

  predicate Accepted(s: Exec, ok: bool) {
    !s.loop.failed && ok
  }

  function Woken(s: Exec): Exec {
    s.(loop := s.loop.(wake := true))
  }

  /** The store took the write. */
  function Wrote(s: Exec, id: Id, next: Node): Exec {
    Woken(s).(nodes := s.nodes[id := next])
  }

  /** The store refused the write, which ends the run; after that nothing is written. */
  function Rejected(s: Exec): Exec {
    if s.loop.failed then s else s.(loop := s.loop.(failed := true, ctxDone := true, wake := true))
  }

  /** `commitLocked`. */
  function Commit(s: Exec, id: Id, next: Node, ok: bool): Exec {
    if Accepted(s, ok) then Wrote(s, id, next) else Rejected(s)
  }

  /** How far a close got: the nodes it canceled and, when a write was rejected, the node
      whose attempt had been canceled by then. */
  datatype Closing = Closing(done: set<Id>, stopped: Option<Id>) {
    predicate Ok() {
      stopped.None?
    }
  }

  /** The worklist of `closeLocked`: everything below `parent`, or everything for no parent. */
  ghost function CloseSet(nodes: Nodes, parent: Id): set<Id> {
    if parent == NIL then nodes.Keys else Descendants(nodes, parent)
  }

  function LiveAmong(nodes: Nodes, ids: set<Id>): set<Id> {
    set id | id in ids && id in nodes && !nodes[id].Terminal()
  }

  predicate ClosingPossible(s: Exec, ids: set<Id>, c: Closing) {
    var targets := LiveAmong(s.nodes, ids);
    && c.done <= targets
    && (c.Ok() ==> c.done == targets)
    && (c.stopped.Some? ==> c.stopped.value in targets - c.done)
    && (s.loop.failed ==> c.done == {})
  }

  predicate TouchedBy(s: Exec, t: TaskId, c: Closing)
    requires t in s.tasks
  {
    var node := s.tasks[t].node;
    node in s.active && s.active[node] == t && (node in c.done || c.stopped == Some(node))
  }

  function CanceledNode(n: Node, reason: string): Node {
    n.(state := Canceled, waitingOn := NoReason, report := n.report.(error := reason))
  }

  function CanceledIn(nodes: Nodes, done: set<Id>, reason: string): Nodes {
    map id | id in nodes :: if id in done then CanceledNode(nodes[id], reason) else nodes[id]
  }

  function ClosedLoop(loop: Loop, c: Closing): Loop {
    var refused := !c.Ok() && !loop.failed;
    loop.(wake := loop.wake || c.done != {} || refused, ctxDone := loop.ctxDone || refused,
          failed := loop.failed || refused)
  }

  /** `closeLocked` once its worklist is known. */
  function Close(s: Exec, c: Closing, reason: string): Exec {
    s.(nodes := CanceledIn(s.nodes, c.done, reason),
       tasks := map t | t in s.tasks :: if TouchedBy(s, t, c) then s.tasks[t].(canceled := true) else s.tasks[t],
       loop := ClosedLoop(s.loop, c))
  }

  // ---- The scheduler loop ---------------------------------------------------

  function TimerFor(nodes: Nodes, id: Id): Timer
    requires id in nodes
  {
    Timer(id, nodes[id].attempt, nodes[id].nextAttemptAt)
  }

  predicate Due(n: Node, now: Time) {
    n.state.Pending? && n.nextAttemptAt <= now
  }

  function NewLedger(n: Node): Ledger {
    Ledger(0, n.failures, if n.state.Pending? then n.nextAttemptAt else 0)
  }

  function NewLedgers(nodes: Nodes): map<Id, Ledger> {
    map id | id in nodes :: NewLedger(nodes[id])
  }

  /** `New` followed by the first section of `Run`, for a valid snapshot. */
  function Start(nodes: Nodes, root: Id, now: Time, timers: set<Timer>): Exec {
    Exec(nodes, map[], map[], map[], Loop(now, timers, false, Scheduling, false, false),
         Book(root, map[], NewLedgers(nodes)))
  }

  /** A pending node that is not due has an armed timer. */
  predicate TimersArmed(nodes: Nodes, timers: set<Timer>, now: Time) {
    forall id :: id in nodes && nodes[id].state.Pending? ==>
      nodes[id].nextAttemptAt <= now || TimerFor(nodes, id) in timers
  }

  function FailedPrerequisite(n: Node): Node {
    n.(state := Failed, report := n.report.(error := "prerequisite failed"))
  }

  function MadeReady(n: Node): Node {
    n.(state := Ready, waitingOn := NoReason)
  }

  predicate CanFailPending(s: Exec, id: Id, p: Id) {
    && s.loop.scheduler.Scheduling?
    && id in s.nodes && Due(s.nodes[id], s.loop.now)
    && p in s.nodes[id].spec.prerequisites && Lost(s.nodes, p)
  }

  function FailPending(s: Exec, id: Id, ok: bool): Exec
    requires id in s.nodes
  {
    Commit(s, id, FailedPrerequisite(s.nodes[id]), ok)
  }

  /** A second lost entry among the prerequisites commits the same failed node again. */
  predicate CanFailAgain(s: Exec, id: Id) {
    && s.loop.scheduler.Scheduling?
    && id in s.nodes && s.nodes[id].state.Failed? && s.nodes[id].report.error == "prerequisite failed"
    && LostEntries(s.nodes, id, s.nodes[id].spec.prerequisites) >= 2
  }

  predicate CanMakeReady(s: Exec, id: Id, t: TaskId) {
    && s.loop.scheduler.Scheduling?
    && id in s.nodes && Due(s.nodes[id], s.loop.now)
    && AllDone(s.nodes, s.nodes[id].spec.prerequisites)
    && t !in s.tasks
  }

  function NewTask(id: Id): Task {
    Task(id, Spawned, 0, false, 0, false, None, [], None)
  }

  function MakeReady(s: Exec, id: Id, t: TaskId, ok: bool): Exec
    requires id in s.nodes
  {
    if Accepted(s, ok)
    then Wrote(s, id, MadeReady(s.nodes[id])).(tasks := s.tasks[t := NewTask(id)], book := s.book.(worker := s.book.worker[id := t]))
    else Rejected(s)
  }

  /** Nothing is left to dispatch: every pending node has its timer or is blocked. */
  predicate Settled(nodes: Nodes, timers: set<Timer>) {
    forall id :: id in nodes && nodes[id].state.Pending? ==> TimerFor(nodes, id) in timers || Blocked(nodes, id)
  }

  predicate RootLive(nodes: Nodes, root: Id) {
    root in nodes && !nodes[root].Terminal()
  }

  /** The end of a scheduling pass: the loop waits for a wake-up. */
  predicate CanPark(s: Exec) {
    && s.loop.scheduler.Scheduling?
    && (s.loop.failed || s.loop.ctxDone || (Settled(s.nodes, s.loop.timers) && (s.loop.wake || RootLive(s.nodes, s.book.root))))
  }

  predicate CanReturnByRoot(s: Exec) {
    && s.loop.scheduler.Scheduling? && !s.loop.failed && !s.loop.ctxDone
    && s.book.root in s.nodes && s.nodes[s.book.root].Terminal()
  }

  /** The root is terminal: `Run` closes every node and returns. */
  function ReturnedWith(s: Exec, c: Closing): Exec {
    var closed := Close(s, c, "root action completed");
    closed.(loop := closed.loop.(scheduler := if c.Ok() then ReturnedByRoot else ReturnedByError, ctxDone := true))
  }

  // ---- execute --------------------------------------------------------------

  predicate At(s: Exec, t: TaskId, phase: Phase) {
    t in s.tasks && s.tasks[t].phase == phase && s.tasks[t].node in s.nodes
  }

  function SetTask(s: Exec, t: TaskId, task: Task): Exec {
    s.(tasks := s.tasks[t := task])
  }

  function ExitedTask(task: Task): Task {
    task.(phase := Exited, held := false, canceled := true)
  }

  function Exit(s: Exec, t: TaskId): Exec
    requires t in s.tasks
  {
    SetTask(s, t, ExitedTask(s.tasks[t]))
  }

  /** A goroutine commits its own node and moves on. */
  function Move(s: Exec, t: TaskId, next: Node, task: Task): Exec
    requires t in s.tasks
  {
    SetTask(Wrote(s, s.tasks[t].node, next), t, task)
  }

  /** Commit a terminal state and, if the store took it, close the subtree. */
  function CommitAndClose(s: Exec, id: Id, next: Node, ok: bool, c: Closing, reason: string): Exec {
    if Accepted(s, ok) then Close(Wrote(s, id, next), c, reason) else Rejected(s)
  }

  function WaitingForImage(n: Node): Node {
    n.(state := Waiting, waitingOn := ForImage)
  }

  /** Wait for the node's image, or go straight to the slot pool. */
  function ImageOrAcquire(s: Exec, t: TaskId, ok: bool): Exec
    requires t in s.tasks && s.tasks[t].node in s.nodes
  {
    var n := s.nodes[s.tasks[t].node];
    if n.spec.imageKey == [] then SetTask(s, t, s.tasks[t].(phase := Acquiring))
    else if Accepted(s, ok) then Move(s, t, WaitingForImage(n), s.tasks[t].(phase := Ensuring))
    else Exit(Rejected(s), t)
  }

  function Begin(s: Exec, t: TaskId, ok: bool): Exec
    requires At(s, t, Spawned)
  {
    var n := s.nodes[s.tasks[t].node];
    if !n.state.Ready? || s.loop.ctxDone then Exit(s, t)
    else if n.spec.cacheKey != [] then SetTask(s, t, s.tasks[t].(phase := LookingUp))
    else ImageOrAcquire(s, t, ok)
  }

  /** A goroutine that comes back to an ended node or run gives up. */
  predicate Abandons(s: Exec, t: TaskId)
    requires t in s.tasks && s.tasks[t].node in s.nodes
  {
    s.nodes[s.tasks[t].node].Terminal() || s.loop.ctxDone
  }

  /** What a cache lookup found: a miss, an output or a stored failure. */
  datatype Lookup = Miss | Hit(output: Bytes, failure: Option<Failure>)

  function HitNode(n: Node, hit: Lookup): Node
    requires hit.Hit?
  {
    match hit.failure
    case None => n.(state := Done, report := Report(hit.output, "", true))
    case Some(f) => n.(state := Failed, report := Report(hit.output, f.message, f.cacheable))
  }

  function LookupReturns(s: Exec, t: TaskId, found: Lookup, ok: bool, c: Closing): Exec
    requires At(s, t, LookingUp)
  {
    var id := s.tasks[t].node;
    if Abandons(s, t) then Exit(s, t)
    else if found.Miss? then ImageOrAcquire(s, t, ok)
    else CommitAndClose(Exit(s, t), id, HitNode(s.nodes[id], found), ok, c, "parent action completed")
  }

  function ImageFailed(n: Node, message: string): Node {
    n.(state := Failed, waitingOn := NoReason, report := n.report.(error := message))
  }

  function ImageReturns(s: Exec, t: TaskId, failure: Option<string>, ok: bool, c: Closing): Exec
    requires At(s, t, Ensuring)
  {
    var id := s.tasks[t].node;
    if Abandons(s, t) then Exit(s, t)
    else if failure.Some? then
      CommitAndClose(Exit(s, t), id, ImageFailed(s.nodes[id], failure.value), ok, c, "parent action failed")
    else if Accepted(s, ok) then Move(s, t, MadeReady(s.nodes[id]), s.tasks[t].(phase := Acquiring))
    else Exit(Rejected(s), t)
  }

  function AcquireSlot(s: Exec, t: TaskId): Exec
    requires At(s, t, Acquiring)
  {
    SetTask(s, t, s.tasks[t].(phase := Acquired, held := true))
  }

  function StartedNode(n: Node): Node {
    n.(state := Running, attempt := n.attempt + 1, nextAttemptAt := 0)
  }

  function Charged(ledger: map<Id, Ledger>, id: Id): map<Id, Ledger> {
    if id in ledger then ledger[id := ledger[id].(runs := ledger[id].runs + 1)] else ledger
  }

  /** The section that starts an attempt and publishes its record. */
  function StartAttempt(s: Exec, t: TaskId, ok: bool): Exec
    requires At(s, t, Acquired)
  {
    var id := s.tasks[t].node;
    var n := s.nodes[id];
    if !n.state.Ready? || s.loop.ctxDone then Exit(s, t)
    else if !Accepted(s, ok) then Exit(Rejected(s), t)
    else Launched(s, t)
  }

  function Launched(s: Exec, t: TaskId): Exec
    requires At(s, t, Acquired)
  {
    var id := s.tasks[t].node;
    Move(s, t, StartedNode(s.nodes[id]), s.tasks[t].(phase := InRunner, number := s.nodes[id].attempt + 1)).(
      active := s.active[id := t], book := s.book.(ledger := Charged(s.book.ledger, id)))
  }

  function RunnerReturns(s: Exec, t: TaskId, output: Bytes, failure: Option<Failure>): Exec
    requires At(s, t, InRunner)
  {
    SetTask(s, t, s.tasks[t].(phase := Returned, output := output, failure := failure))
  }

  /** The node after an attempt: done, failed for good, or pending until its backoff ends. */
  function Outcome(n: Node, output: Bytes, failure: Option<Failure>, now: Time): Node {
    match failure
    case None => n.(state := Done, waitingOn := NoReason, report := n.report.(output := output, error := ""))
    case Some(f) =>
      var report := n.report.(output := output, error := f.message);
      if !f.cacheable && n.failures + 1 < n.Limit() then
        n.(state := Pending, waitingOn := ForRetry, failures := n.failures + 1,
           nextAttemptAt := now + Backoff(n.failures + 1), report := report)
      else n.(state := Failed, waitingOn := NoReason, failures := n.failures + 1, report := report)
  }

  /** The closing section of `execute`: the slot goes back and the attempt record is
      removed before anything else, so a retry cannot overlap it. */
  function Leave(s: Exec, t: TaskId): Exec
    requires At(s, t, Returned)
  {
    Exit(s, t).(active := s.active - {s.tasks[t].node})
  }

  predicate AttemptStands(s: Exec, t: TaskId)
    requires At(s, t, Returned)
  {
    var n := s.nodes[s.tasks[t].node];
    !s.loop.ctxDone && !n.Terminal() && n.attempt == s.tasks[t].number
  }

  function OutcomeOf(s: Exec, t: TaskId): Node
    requires At(s, t, Returned)
  {
    Outcome(s.nodes[s.tasks[t].node], s.tasks[t].output, s.tasks[t].failure, s.loop.now)
  }

  function Postponed(ledger: map<Id, Ledger>, id: Id, at: Time): map<Id, Ledger> {
    if id in ledger then ledger[id := ledger[id].(notBefore := at)] else ledger
  }

  /** A failed attempt that will be retried: the node is pending and a timer is armed. */
  function Retry(s: Exec, id: Id, next: Node): Exec {
    s.(nodes := s.nodes[id := next],
       loop := s.loop.(wake := true, timers := s.loop.timers + {Timer(id, next.attempt, next.nextAttemptAt)}),
       book := s.book.(ledger := Postponed(s.book.ledger, id, next.nextAttemptAt)))
  }

  function Finish(s: Exec, t: TaskId, ok: bool, c: Closing): Exec
    requires At(s, t, Returned)
  {
    var id := s.tasks[t].node;
    if !AttemptStands(s, t) then Leave(s, t)
    else if !OutcomeOf(s, t).state.Pending? then
      CommitAndClose(Leave(s, t), id, OutcomeOf(s, t), ok, c, "parent action completed")
    else if Accepted(s, ok) then Retry(Leave(s, t), id, OutcomeOf(s, t))
    else Rejected(Leave(s, t))
  }

  // ---- Add, Wait, resume ----------------------------------------------------

  /** The parent attempt named by a call is the one in progress. */
  predicate ParentActive(s: Exec, parent: Id, attempt: int) {
    && parent in s.nodes && s.nodes[parent].attempt == attempt
    && parent in s.active && !s.nodes[parent].Terminal()
  }

  predicate CanAdd(s: Exec, parent: Id, attempt: int, id: Id) {
    !s.loop.failed && ParentActive(s, parent, attempt) && id !in s.nodes
  }

  function Add(s: Exec, parent: Id, id: Id, node: Node): Exec {
    var child := node.(spec := node.spec.(parent := Some(parent)));
    s.(nodes := s.nodes[id := child],
       loop := s.loop.(
         wake := true,
         timers := if child.state.Pending? && s.loop.now < child.nextAttemptAt
                   then s.loop.timers + {Timer(id, child.attempt, child.nextAttemptAt)} else s.loop.timers),
       book := s.book.(ledger := s.book.ledger[id := NewLedger(child)]))
  }

  predicate CanWait(s: Exec, k: CallId, parent: Id, attempt: int, child: Id) {
    && k !in s.calls
    && ParentActive(s, parent, attempt) && s.active[parent] in s.tasks
    && child in s.nodes && s.nodes[child].spec.parent == Some(parent)
  }

  function WaitingForChildren(n: Node): Node {
    n.(state := Waiting, waitingOn := ForChildren)
  }

  /** The caller is counted as a waiter of the attempt, which no longer holds a slot. */
  function Counting(s: Exec, k: CallId, parent: Id, attempt: int, child: Id): Exec
    requires parent in s.active && s.active[parent] in s.tasks
  {
    var t := s.active[parent];
    SetTask(s, t, s.tasks[t].(held := false, waiters := s.tasks[t].waiters + 1)).(
      calls := s.calls[k := Call(parent, attempt, t, child, Counted)])
  }

  /** `Wait` up to the point where it blocks; a parent that still holds its slot gives it back. */
  function WaitBegins(s: Exec, k: CallId, parent: Id, attempt: int, child: Id, ok: bool): Exec
    requires CanWait(s, k, parent, attempt, child)
  {
    var t := s.active[parent];
    if s.nodes[child].Terminal() then
      s.(calls := s.calls[k := Call(parent, attempt, t, child, NeedMutex)])
    else if !s.tasks[t].held then Counting(s, k, parent, attempt, child)
    else if Accepted(s, ok) then
      Counting(Wrote(s, parent, WaitingForChildren(s.nodes[parent])), k, parent, attempt, child)
    else Rejected(s)
  }

  predicate CallAt(s: Exec, k: CallId, phase: CallPhase) {
    k in s.calls && s.calls[k].phase == phase && s.calls[k].task in s.tasks
  }

  /** The attempt's context has ended. */
  predicate Over(s: Exec, t: TaskId)
    requires t in s.tasks
  {
    s.loop.ctxDone || s.tasks[t].canceled
  }

  predicate CanUnblock(s: Exec, k: CallId, callerCanceled: bool) {
    && CallAt(s, k, Counted)
    && (callerCanceled || Over(s, s.calls[k].task)
        || (s.calls[k].child in s.nodes && s.nodes[s.calls[k].child].Terminal()))
  }

  function Unblock(s: Exec, k: CallId): Exec
    requires CallAt(s, k, Counted)
  {
    var t := s.calls[k].task;
    SetTask(Woken(s), t, s.tasks[t].(waiters := s.tasks[t].waiters - 1)).(
      calls := s.calls[k := s.calls[k].(phase := NeedMutex)])
  }

  function SetPhase(s: Exec, k: CallId, phase: CallPhase): Exec
    requires k in s.calls
  {
    s.(calls := s.calls[k := s.calls[k].(phase := phase)])
  }

  function TakeMutex(s: Exec, k: CallId): Exec
    requires CallAt(s, k, NeedMutex)
  {
    var t := s.calls[k].task;
    SetTask(s, t, s.tasks[t].(resumer := Some(k))).(calls := s.calls[k := s.calls[k].(phase := Draining)])
  }

  /** Leave `resume`, giving the mutex back. */
  function Resumed(s: Exec, k: CallId): Exec
    requires k in s.calls && s.calls[k].task in s.tasks
  {
    var t := s.calls[k].task;
    SetTask(s, t, s.tasks[t].(resumer := None)).(calls := s.calls - {k})
  }

  function Recheck(s: Exec, k: CallId): Exec
    requires CallAt(s, k, Rechecking)
  {
    var call := s.calls[k];
    if s.loop.failed || !ParentActive(s, call.parent, call.attempt) || s.active[call.parent] != call.task
       || Over(s, call.task) || s.tasks[call.task].held
    then Resumed(s, k)
    else SetPhase(s, k, Reacquiring)
  }

  function Resuming(n: Node): Node {
    n.(state := Running, waitingOn := NoReason)
  }

  predicate CanReclaim(s: Exec, k: CallId)
    requires CallAt(s, k, GotSlot) && s.calls[k].parent in s.nodes
  {
    var call := s.calls[k];
    && call.parent in s.active && s.active[call.parent] == call.task
    && !s.nodes[call.parent].Terminal() && !Over(s, call.task)
  }

  /** The acquired slot becomes the attempt's. */
  function Holding(s: Exec, k: CallId): Exec
    requires CallAt(s, k, GotSlot)
  {
    var t := s.calls[k].task;
    SetTask(s, t, s.tasks[t].(held := true, resumer := None)).(calls := s.calls - {k})
  }

  /** The section that turns an acquired slot into a held one. */
  function Reclaim(s: Exec, k: CallId, ok: bool): Exec
    requires CallAt(s, k, GotSlot) && s.calls[k].parent in s.nodes
  {
    var parent := s.calls[k].parent;
    if !CanReclaim(s, k) then Resumed(s, k)
    else if Accepted(s, ok) then Wrote(Holding(s, k), parent, Resuming(s.nodes[parent]))
    else Rejected(Holding(s, k))
  }

  // ---- Cancellation and timers ----------------------------------------------

  function CancelAttempt(s: Exec, id: Id): Exec {
    if id in s.active && s.active[id] in s.tasks
    then SetTask(s, s.active[id], s.tasks[s.active[id]].(canceled := true)) else s
  }

  function CanceledAction(n: Node): Node {
    n.(state := Canceled, report := n.report.(error := "action canceled"))
  }

  function CancelSubtree(s: Exec, id: Id, ok: bool, c: Closing): Exec
    requires id in s.nodes
  {
    if s.nodes[id].Terminal() then Close(s, c, "ancestor canceled")
    else CommitAndClose(CancelAttempt(s, id), id, CanceledAction(s.nodes[id]), ok, c, "ancestor canceled")
  }

  function CanceledRun(s: Exec, c: Closing): Exec {
    var closed := Close(s, c, "run canceled");
    closed.(loop := closed.loop.(ctxDone := true))
  }

  function TimerFires(s: Exec, timer: Timer): Exec {
    var match_ := timer.id in s.nodes && s.nodes[timer.id].attempt == timer.attempt && s.nodes[timer.id].state.Pending?;
    s.(loop := s.loop.(timers := s.loop.timers - {timer}, wake := s.loop.wake || match_))
  }

  // ---- Steps ----------------------------------------------------------------

  datatype Step =
    | Tick(to: Time)
    | EndContext
    | WakeUp
    | DispatchFail(id: Id, p: Id, ok: bool)
    | DispatchFailAgain(id: Id, ok: bool)
    | DispatchReady(id: Id, t: TaskId, ok: bool)
    | Park
    | ReturnByRoot(c: Closing)
    | ReturnByError
    | BeginTask(t: TaskId, ok: bool)
    | LookedUp(t: TaskId, found: Lookup, ok: bool, c: Closing)
    | Ensured(t: TaskId, imageFailure: Option<string>, ok: bool, c: Closing)
    | Acquire(t: TaskId)
    | AcquireAborted(t: TaskId)
    | Launch(t: TaskId, ok: bool)
    | Return(t: TaskId, output: Bytes, failure: Option<Failure>)
    | FinishTask(t: TaskId, ok: bool, c: Closing)
    | AddNode(parent: Id, attempt: int, id: Id, node: Node)
    | WaitStart(k: CallId, parent: Id, attempt: int, child: Id, ok: bool)
    | WaitEnd(k: CallId, callerCanceled: bool)
    | Lock(k: CallId)
    | Drain(k: CallId)
    | CheckAgain(k: CallId)
    | Reacquire(k: CallId)
    | ReacquireAborted(k: CallId)
    | Restore(k: CallId, ok: bool)
    | CancelTree(id: Id, ok: bool, c: Closing)
    | CancelAll(c: Closing)
    | Fire(timer: Timer)
    | DropTimer(timer: Timer)

  /** The close a step performs covers what is below `id`. */
  ghost predicate ClosesBelow(s: Exec, id: Id, next: Node, ok: bool, c: Closing) {
    Accepted(s, ok) ==> ClosingPossible(Wrote(s, id, next), CloseSet(s.nodes, id), c)
  }

  // ---- What each kind of step does ------------------------------------------

  predicate LoopStep(step: Step) {
    step.EndContext? || step.WakeUp? || step.Park? || step.ReturnByError? || step.DropTimer?
  }

  predicate ClockStep(step: Step) {
    step.Tick? || step.Fire?
  }

  predicate DispatchStep(step: Step) {
    step.DispatchFail? || step.DispatchFailAgain? || step.DispatchReady?
  }

  predicate EarlyStep(step: Step) {
    step.BeginTask? || step.LookedUp? || step.Ensured? || step.AcquireAborted?
  }

  predicate LateStep(step: Step) {
    step.Acquire? || step.Launch? || step.Return? || step.FinishTask?
  }

  predicate CallStep(step: Step) {
    step.WaitStart? || step.WaitEnd? || step.Lock? || step.Drain? || step.CheckAgain? || step.Reacquire?
    || step.ReacquireAborted? || step.Restore?
  }

  predicate CloseStep(step: Step) {
    step.ReturnByRoot? || step.CancelTree? || step.CancelAll?
  }

  predicate AddStep(step: Step) {
    step.AddNode?
  }

  /** The loop and its context. */
  ghost predicate LoopNext(s: Exec, step: Step, s': Exec)
    requires LoopStep(step)
  {
    match step
    case EndContext => s' == s.(loop := s.loop.(ctxDone := true))
    case WakeUp =>
      && s.loop.scheduler.Parked? && (s.loop.wake || s.loop.ctxDone)
      && s' == s.(loop := s.loop.(scheduler := Scheduling, wake := false))
    case Park => CanPark(s) && s' == s.(loop := s.loop.(scheduler := Parked))
    case ReturnByError =>
      && s.loop.scheduler.Scheduling? && (s.loop.failed || s.loop.ctxDone)
      && s' == s.(loop := s.loop.(scheduler := ReturnedByError, ctxDone := true))
    case DropTimer(timer) => timer in s.loop.timers && s.loop.ctxDone && s' == s.(loop := s.loop.(timers := s.loop.timers - {timer}))
  }

  /** The clock and its timers. */
  ghost predicate ClockNext(s: Exec, step: Step, s': Exec)
    requires ClockStep(step)
  {
    match step
    case Tick(to) => s.loop.now <= to && s' == s.(loop := s.loop.(now := to))
    case Fire(timer) => timer in s.loop.timers && timer.at <= s.loop.now && !s.loop.ctxDone && s' == TimerFires(s, timer)
  }

  /** Scheduling passes. */
  ghost predicate DispatchNext(s: Exec, step: Step, s': Exec)
    requires DispatchStep(step)
  {
    match step
    case DispatchFail(id, p, ok) => CanFailPending(s, id, p) && s' == FailPending(s, id, ok)
    case DispatchFailAgain(id, ok) => CanFailAgain(s, id) && s' == Commit(s, id, s.nodes[id], ok)
    case DispatchReady(id, t, ok) => CanMakeReady(s, id, t) && s' == MakeReady(s, id, t, ok)
  }

  /** An `execute` goroutine up to its slot. */
  ghost predicate EarlyNext(s: Exec, step: Step, s': Exec)
    requires EarlyStep(step)
  {
    match step
    case BeginTask(t, ok) => At(s, t, Spawned) && s' == Begin(s, t, ok)
    case LookedUp(t, found, ok, c) =>
      && At(s, t, LookingUp)
      && (found.Hit? && !Abandons(s, t) ==> ClosesBelow(s, s.tasks[t].node, HitNode(s.nodes[s.tasks[t].node], found), ok, c))
      && s' == LookupReturns(s, t, found, ok, c)
    case Ensured(t, failure, ok, c) =>
      && At(s, t, Ensuring)
      && (failure.Some? && !Abandons(s, t) ==>
            ClosesBelow(s, s.tasks[t].node, ImageFailed(s.nodes[s.tasks[t].node], failure.value), ok, c))
      && s' == ImageReturns(s, t, failure, ok, c)
    case AcquireAborted(t) => At(s, t, Acquiring) && s.loop.ctxDone && s' == Exit(s, t)
  }

  /** An `execute` goroutine from its slot on. */
  ghost predicate LateNext(s: Exec, step: Step, s': Exec)
    requires LateStep(step)
  {
    match step
    case Acquire(t) => At(s, t, Acquiring) && s' == AcquireSlot(s, t)
    case Launch(t, ok) => At(s, t, Acquired) && s' == StartAttempt(s, t, ok)
    case Return(t, output, failure) => At(s, t, InRunner) && s' == RunnerReturns(s, t, output, failure)
    case FinishTask(t, ok, c) =>
      && At(s, t, Returned) && s.tasks[t].resumer.None?
      && (AttemptStands(s, t) && !OutcomeOf(s, t).state.Pending? ==> ClosesBelow(s, s.tasks[t].node, OutcomeOf(s, t), ok, c))
      && s' == Finish(s, t, ok, c)
  }

  /** `Wait` and `resume`. */
  ghost predicate CallNext(s: Exec, step: Step, s': Exec)
    requires CallStep(step)
  {
    match step
    case WaitStart(k, parent, attempt, child, ok) =>
      CanWait(s, k, parent, attempt, child) && s' == WaitBegins(s, k, parent, attempt, child, ok)
    case WaitEnd(k, callerCanceled) => CanUnblock(s, k, callerCanceled) && s' == Unblock(s, k)
    case Lock(k) => CallAt(s, k, NeedMutex) && s.tasks[s.calls[k].task].resumer.None? && s' == TakeMutex(s, k)
    case Drain(k) =>
      && CallAt(s, k, Draining) && (s.tasks[s.calls[k].task].waiters == 0 || Over(s, s.calls[k].task))
      && s' == SetPhase(s, k, Rechecking)
    case CheckAgain(k) => CallAt(s, k, Rechecking) && s' == Recheck(s, k)
    case Reacquire(k) => CallAt(s, k, Reacquiring) && s' == SetPhase(s, k, GotSlot)
    case ReacquireAborted(k) => CallAt(s, k, Reacquiring) && Over(s, s.calls[k].task) && s' == Resumed(s, k)
    case Restore(k, ok) => CallAt(s, k, GotSlot) && s.calls[k].parent in s.nodes && s' == Reclaim(s, k, ok)
  }

  /** Cancellations from outside, and the end of the run through its root. */
  ghost predicate CloseNext(s: Exec, step: Step, s': Exec)
    requires CloseStep(step)
  {
    match step
    case ReturnByRoot(c) => CanReturnByRoot(s) && ClosingPossible(s, CloseSet(s.nodes, NIL), c) && s' == ReturnedWith(s, c)
    case CancelTree(id, ok, c) =>
      && id in s.nodes
      && (if s.nodes[id].Terminal() then ClosingPossible(s, CloseSet(s.nodes, id), c)
          else ClosesBelow(s, id, CanceledAction(s.nodes[id]), ok, c))
      && s' == CancelSubtree(s, id, ok, c)
    case CancelAll(c) => ClosingPossible(s, CloseSet(s.nodes, NIL), c) && s' == CanceledRun(s, c)
  }

  /** A new node. */
  ghost predicate AddNext(s: Exec, step: Step, s': Exec)
    requires AddStep(step)
  {
    match step
    case AddNode(parent, attempt, id, node) => CanAdd(s, parent, attempt, id) && s' == Add(s, parent, id, node)
  }

  ghost predicate Next(s: Exec, step: Step, s': Exec) {
    if LoopStep(step) then LoopNext(s, step, s')
    else if ClockStep(step) then ClockNext(s, step, s')
    else if DispatchStep(step) then DispatchNext(s, step, s')
    else if EarlyStep(step) then EarlyNext(s, step, s')
    else if LateStep(step) then LateNext(s, step, s')
    else if CallStep(step) then CallNext(s, step, s')
    else if CloseStep(step) then CloseNext(s, step, s')
    else AddNext(s, step, s')
  }

  lemma LoopIs(s: Exec, step: Step, s': Exec)
    requires LoopStep(step)
    ensures Next(s, step, s') <==> LoopNext(s, step, s')
  {
    hide LoopNext, ClockNext, DispatchNext, EarlyNext, LateNext, CallNext, CloseNext, AddNext;
  }

  lemma ClockIs(s: Exec, step: Step, s': Exec)
    requires ClockStep(step)
    ensures Next(s, step, s') <==> ClockNext(s, step, s')
  {
    hide LoopNext, ClockNext, DispatchNext, EarlyNext, LateNext, CallNext, CloseNext, AddNext;
  }

  lemma DispatchIs(s: Exec, step: Step, s': Exec)
    requires DispatchStep(step)
    ensures Next(s, step, s') <==> DispatchNext(s, step, s')
  {
    hide LoopNext, ClockNext, DispatchNext, EarlyNext, LateNext, CallNext, CloseNext, AddNext;
  }

  lemma EarlyIs(s: Exec, step: Step, s': Exec)
    requires EarlyStep(step)
    ensures Next(s, step, s') <==> EarlyNext(s, step, s')
  {
    hide LoopNext, ClockNext, DispatchNext, EarlyNext, LateNext, CallNext, CloseNext, AddNext;
  }

  lemma LateIs(s: Exec, step: Step, s': Exec)
    requires LateStep(step)
    ensures Next(s, step, s') <==> LateNext(s, step, s')
  {
    hide LoopNext, ClockNext, DispatchNext, EarlyNext, LateNext, CallNext, CloseNext, AddNext;
  }

  lemma CallIs(s: Exec, step: Step, s': Exec)
    requires CallStep(step)
    ensures Next(s, step, s') <==> CallNext(s, step, s')
  {
    hide LoopNext, ClockNext, DispatchNext, EarlyNext, LateNext, CallNext, CloseNext, AddNext;
  }

  lemma CloseIs(s: Exec, step: Step, s': Exec)
    requires CloseStep(step)
    ensures Next(s, step, s') <==> CloseNext(s, step, s')
  {
    hide LoopNext, ClockNext, DispatchNext, EarlyNext, LateNext, CallNext, CloseNext, AddNext;
  }

  lemma AddIs(s: Exec, step: Step, s': Exec)
    requires AddStep(step)
    ensures Next(s, step, s') <==> AddNext(s, step, s')
  {
    hide LoopNext, ClockNext, DispatchNext, EarlyNext, LateNext, CallNext, CloseNext, AddNext;
  }
}
