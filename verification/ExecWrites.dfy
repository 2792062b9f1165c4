/** What one step of an executor sends to the store: which transitions, in which order, and how
    the answers shape the graph. */
module ExecWrites {
  import opened Base
  import opened Graph
  import opened Exec
  import opened ExecInvariants
  import opened ExecSteps
  import opened ExecRuns

  /** One transition and whether the store acknowledged it. */
  datatype Write = Write(id: Id, next: Node, ok: bool)

  /** A commit reaches the store unless a write was refused before. */
  function One(s: Exec, id: Id, next: Node, ok: bool): seq<Write> {
    if s.loop.failed then [] else [Write(id, next, ok)]
  }

  function Cancellation(nodes: Nodes, id: Id, reason: string, ok: bool): seq<Write> {
    if id in nodes then [Write(id, CanceledNode(nodes[id], reason), ok)] else []
  }

  function Cancellations(nodes: Nodes, order: seq<Id>, reason: string): seq<Write> {
    if order == [] then [] else Cancellation(nodes, order[0], reason, true) + Cancellations(nodes, order[1..], reason)
  }

  /** A close cancels nodes in some order until a write is refused. */
  function CloseWrites(nodes: Nodes, c: Closing, order: seq<Id>, reason: string): seq<Write> {
    Cancellations(nodes, order, reason) + (if c.stopped.Some? then Cancellation(nodes, c.stopped.value, reason, false) else [])
  }

  function ClosingWrites(s: Exec, c: Closing, order: seq<Id>, reason: string): seq<Write> {
    if s.loop.failed then [] else CloseWrites(s.nodes, c, order, reason)
  }

  function CommitWrites(s: Exec, id: Id, next: Node, ok: bool, c: Closing, order: seq<Id>, reason: string): seq<Write> {
    One(s, id, next, ok) + (if Accepted(s, ok) then CloseWrites(s.nodes[id := next], c, order, reason) else [])
  }

  function ImageWrites(s: Exec, t: TaskId, ok: bool): seq<Write>
    requires t in s.tasks && s.tasks[t].node in s.nodes
  {
    var id := s.tasks[t].node;
    if s.nodes[id].spec.imageKey == [] then [] else One(s, id, WaitingForImage(s.nodes[id]), ok)
  }

  /** The transitions of an `execute` goroutine up to its slot. */
  function EarlyWrites(s: Exec, step: Step, order: seq<Id>): seq<Write> {
    match step
    case BeginTask(t, ok) =>
      if !At(s, t, Spawned) || !s.nodes[s.tasks[t].node].state.Ready? || s.loop.ctxDone
         || s.nodes[s.tasks[t].node].spec.cacheKey != [] then []
      else ImageWrites(s, t, ok)
    case LookedUp(t, found, ok, c) =>
      if !At(s, t, LookingUp) || Abandons(s, t) then []
      else if found.Miss? then ImageWrites(s, t, ok)
      else CommitWrites(s, s.tasks[t].node, HitNode(s.nodes[s.tasks[t].node], found), ok, c, order, "parent action completed")
    case Ensured(t, failure, ok, c) =>
      if !At(s, t, Ensuring) || Abandons(s, t) then []
      else if failure.Some? then
        CommitWrites(s, s.tasks[t].node, ImageFailed(s.nodes[s.tasks[t].node], failure.value), ok, c, order, "parent action failed")
      else One(s, s.tasks[t].node, MadeReady(s.nodes[s.tasks[t].node]), ok)
    case _ => []
  }

  /** The transitions of an `execute` goroutine from its slot on. */
  function LateWrites(s: Exec, step: Step, order: seq<Id>): seq<Write> {
    match step
    case Launch(t, ok) =>
      if !At(s, t, Acquired) || !s.nodes[s.tasks[t].node].state.Ready? || s.loop.ctxDone then []
      else One(s, s.tasks[t].node, StartedNode(s.nodes[s.tasks[t].node]), ok)
    case FinishTask(t, ok, c) =>
      if !At(s, t, Returned) || !AttemptStands(s, t) then []
      else if OutcomeOf(s, t).state.Pending? then One(s, s.tasks[t].node, OutcomeOf(s, t), ok)
      else CommitWrites(s, s.tasks[t].node, OutcomeOf(s, t), ok, c, order, "parent action completed")
    case _ => []
  }

  /** The transitions of a scheduling pass. */
  function DispatchWrites(s: Exec, step: Step): seq<Write> {
    match step
    case DispatchFail(id, _, ok) => if id in s.nodes then One(s, id, FailedPrerequisite(s.nodes[id]), ok) else []
    case DispatchFailAgain(id, ok) => if id in s.nodes then One(s, id, s.nodes[id], ok) else []
    case DispatchReady(id, _, ok) => if id in s.nodes then One(s, id, MadeReady(s.nodes[id]), ok) else []
    case _ => []
  }

  /** The transitions of `Wait` and `resume`. */
  function WaitWrites(s: Exec, step: Step): seq<Write> {
    match step
    case WaitStart(k, parent, attempt, child, ok) =>
      if !CanWait(s, k, parent, attempt, child) || s.nodes[child].Terminal() || !s.tasks[s.active[parent]].held then []
      else One(s, parent, WaitingForChildren(s.nodes[parent]), ok)
    case Restore(k, ok) =>
      if !CallAt(s, k, GotSlot) || s.calls[k].parent !in s.nodes || !CanReclaim(s, k) then []
      else One(s, s.calls[k].parent, Resuming(s.nodes[s.calls[k].parent]), ok)
    case _ => []
  }

  /** The transitions of cancellations and of the end of the run. */
  function CancelWrites(s: Exec, step: Step, order: seq<Id>): seq<Write> {
    match step
    case ReturnByRoot(c) => ClosingWrites(s, c, order, "root action completed")
    case CancelTree(id, ok, c) =>
      if id !in s.nodes then []
      else if s.nodes[id].Terminal() then ClosingWrites(s, c, order, "ancestor canceled")
      else CommitWrites(s, id, CanceledAction(s.nodes[id]), ok, c, order, "ancestor canceled")
    case CancelAll(c) => ClosingWrites(s, c, order, "run canceled")
    case _ => []
  }

  lemma RestoreWrites(s: Exec, k: CallId, ok: bool)
    requires CallAt(s, k, GotSlot) && s.calls[k].parent in s.nodes
    ensures WaitWrites(s, Restore(k, ok)) ==
            if CanReclaim(s, k) then One(s, s.calls[k].parent, Resuming(s.nodes[s.calls[k].parent]), ok) else []
  {
    hide CanReclaim;
  }

  lemma LaunchWrites(s: Exec, t: TaskId, ok: bool)
    requires At(s, t, Acquired)
    ensures LateWrites(s, Launch(t, ok), []) ==
            if !s.nodes[s.tasks[t].node].state.Ready? || s.loop.ctxDone then []
            else One(s, s.tasks[t].node, StartedNode(s.nodes[s.tasks[t].node]), ok)
  {
  }

  lemma CancelTreeWrites(s: Exec, id: Id, ok: bool, c: Closing, order: seq<Id>)
    requires id in s.nodes
    ensures CancelWrites(s, CancelTree(id, ok, c), order) ==
            if s.nodes[id].Terminal() then ClosingWrites(s, c, order, "ancestor canceled")
            else CommitWrites(s, id, CanceledAction(s.nodes[id]), ok, c, order, "ancestor canceled")
  {
    hide ClosingWrites, CommitWrites;
  }

  /** Everything a step sends; `order` is the order in which its close goes through the nodes. */
  function Sent(s: Exec, step: Step, order: seq<Id>): seq<Write> {
    if DispatchStep(step) then DispatchWrites(s, step)
    else if EarlyStep(step) then EarlyWrites(s, step, order)
    else if LateStep(step) then LateWrites(s, step, order)
    else if CloseStep(step) then CancelWrites(s, step, order)
    else WaitWrites(s, step)
  }

  /** Everything a run sends, step by step. */
  function Logged(trace: seq<Exec>, steps: seq<Step>, orders: seq<seq<Id>>): seq<Write>
    requires |steps| == |orders| < |trace|
  {
    if steps == [] then []
    else
      var n := |steps| - 1;
      Logged(trace, steps[..n], orders[..n]) + Sent(trace[n], steps[n], orders[n])
  }

  predicate Enumerates(order: seq<Id>, ids: set<Id>) {
    (forall i, j :: 0 <= i < j < |order| ==> order[i] != order[j]) && (forall id :: id in order ==> id in ids) && forall id :: id in ids ==> id in order
  }

  predicate Ordered(step: Step, order: seq<Id>) {
    match step
    case ReturnByRoot(c) => Enumerates(order, c.done)
    case LookedUp(_, _, _, c) => Enumerates(order, c.done)
    case Ensured(_, _, _, c) => Enumerates(order, c.done)
    case FinishTask(_, _, c) => Enumerates(order, c.done)
    case CancelTree(_, _, c) => Enumerates(order, c.done)
    case CancelAll(c) => Enumerates(order, c.done)
    case _ => true
  }

  /** The steps that send nothing. */
  predicate Quiet(step: Step) {
    || LoopStep(step) || ClockStep(step) || step.AcquireAborted? || step.Acquire? || step.Return? || step.AddNode?
    || (CallStep(step) && !step.WaitStart? && !step.Restore?)
  }

  lemma QuietSends(s: Exec, step: Step, order: seq<Id>)
    requires Quiet(step)
    ensures Sent(s, step, order) == [] && Ordered(step, order)
  {
  }

  /** What a step sends, kind by kind. */
  lemma DispatchSends(s: Exec, step: Step)
    requires DispatchStep(step)
    ensures Sent(s, step, []) == DispatchWrites(s, step) && Ordered(step, [])
  {
    hide DispatchWrites, EarlyWrites, LateWrites, CancelWrites, WaitWrites, Enumerates;
  }

  lemma EarlySends(s: Exec, step: Step, order: seq<Id>)
    requires EarlyStep(step) && (step.LookedUp? || step.Ensured? ==> Enumerates(order, step.c.done))
    ensures Sent(s, step, order) == EarlyWrites(s, step, order) && Ordered(step, order)
  {
    hide DispatchWrites, EarlyWrites, LateWrites, CancelWrites, WaitWrites, Enumerates;
  }

  lemma LateSends(s: Exec, step: Step, order: seq<Id>)
    requires LateStep(step) && (step.FinishTask? ==> Enumerates(order, step.c.done))
    ensures Sent(s, step, order) == LateWrites(s, step, order) && Ordered(step, order)
  {
    hide DispatchWrites, EarlyWrites, LateWrites, CancelWrites, WaitWrites, Enumerates;
  }

  lemma CallSends(s: Exec, step: Step)
    requires CallStep(step)
    ensures Sent(s, step, []) == WaitWrites(s, step) && Ordered(step, [])
  {
    hide DispatchWrites, EarlyWrites, LateWrites, CancelWrites, WaitWrites, Enumerates;
  }

  lemma CloseSends(s: Exec, step: Step, order: seq<Id>)
    requires CloseStep(step) && Enumerates(order, step.c.done)
    ensures Sent(s, step, order) == CancelWrites(s, step, order) && Ordered(step, order)
  {
    hide DispatchWrites, EarlyWrites, LateWrites, CancelWrites, WaitWrites, Enumerates;
  }

  /** The writes of a run, with an order for each of its closes. */
  predicate IsLog(trace: seq<Exec>, steps: seq<Step>, orders: seq<seq<Id>>, log: seq<Write>) {
    && |steps| == |orders| == |trace| - 1 && log == Logged(trace, steps, orders)
    && forall i :: 0 <= i < |steps| ==> Ordered(steps[i], orders[i])
  }

  lemma NothingLogged(s: Exec)
    ensures IsLog([s], [], [], [])
  {
  }

  /** One more step. */
  lemma {:induction false} LogGrows(trace: seq<Exec>, steps: seq<Step>, orders: seq<seq<Id>>, log: seq<Write>, step: Step, order: seq<Id>, s': Exec)
    requires IsLog(trace, steps, orders, log) && Ordered(step, order)
    ensures IsLog(trace + [s'], steps + [step], orders + [order], log + Sent(trace[|trace| - 1], step, order))
  {
    hide Sent, Ordered;
    var n := |steps|;
    assert (steps + [step])[..n] == steps && (orders + [order])[..n] == orders;
    LogOfPrefix(trace, trace + [s'], steps, orders);
  }

  lemma {:induction false} LogOfPrefix(a: seq<Exec>, b: seq<Exec>, steps: seq<Step>, orders: seq<seq<Id>>)
    requires |steps| == |orders| < |a| <= |b| && forall i :: 0 <= i < |a| ==> b[i] == a[i]
    ensures Logged(a, steps, orders) == Logged(b, steps, orders)
    decreases |steps|
  {
    hide Sent;
    if steps != [] { LogOfPrefix(a, b, steps[..|steps| - 1], orders[..|steps| - 1]); }
  }

  lemma {:induction false} CancellationsAppend(nodes: Nodes, order: seq<Id>, id: Id, reason: string)
    ensures Cancellations(nodes, order + [id], reason) == Cancellations(nodes, order, reason) + Cancellation(nodes, id, reason, true)
    decreases |order|
  {
    if order == [] {
      assert order + [id] == [id];
      assert Cancellations(nodes, [id][1..], reason) == [];
    } else {
      CancellationsAppend(nodes, order[1..], id, reason);
      assert (order + [id])[1..] == order[1..] + [id];
    }
  }

  lemma OrderAppend(order: seq<Id>, ids: set<Id>, id: Id)
    requires Enumerates(order, ids) && id !in ids
    ensures Enumerates(order + [id], ids + {id})
  {
    forall x | x in ids + {id} ensures x in order + [id] {
      if x in ids { assert x in order; } else { assert (order + [id])[|order|] == id; }
    }
  }

  // ---- Writes in turn -------------------------------------------------------

  /** A legal commit or, where a pass fails a node again, the failed node once more. */
  predicate Permitted(n: Node, next: Node, again: bool) {
    LegalCommit(n, next) || (again && next == n && n.state.Failed?)
  }

  /** `writes` lead from graph `a` to graph `b`: each is permitted at that point, acknowledged
      ones take effect, and a refused one, if any, is the last. */
  ghost predicate Orderly(a: Nodes, writes: seq<Write>, b: Nodes, refused: bool, again: bool)
    decreases |writes|
  {
    if writes == [] then a == b && !refused
    else
      var w := writes[0];
      && w.id in a && Permitted(a[w.id], w.next, again)
      && if w.ok then Orderly(a[w.id := w.next], writes[1..], b, refused, again) else writes[1..] == [] && a == b && refused
  }

  /** The graph after some acknowledged writes. */
  function After(nodes: Nodes, writes: seq<Write>): Nodes
    decreases |writes|
  {
    if writes == [] then nodes
    else After(if writes[0].ok then nodes[writes[0].id := writes[0].next] else nodes, writes[1..])
  }

  lemma NothingSent(s: Exec)
    ensures Orderly(s.nodes, [], s.nodes, false, false)
  {
  }

  lemma OneIsOrderly(s: Exec, id: Id, next: Node, ok: bool, again: bool)
    requires id in s.nodes && Permitted(s.nodes[id], next, again)
    ensures Orderly(s.nodes, One(s, id, next, ok), if Accepted(s, ok) then s.nodes[id := next] else s.nodes, !s.loop.failed && !ok, again)
  {
    hide Permitted;
    var w := [Write(id, next, ok)];
    assert w[1..] == [];
    if ok { assert Orderly(s.nodes[id := next], w[1..], s.nodes[id := next], false, again); }
  }

  lemma LiveMayCancel(nodes: Nodes, id: Id, reason: string)
    requires id in nodes && !nodes[id].Terminal()
    ensures LegalCommit(nodes[id], CanceledNode(nodes[id], reason))
  {
  }

  /** Cancellations of other nodes do not change what a cancellation writes. */
  lemma {:induction false} CancellationsOfOthers(a: Nodes, b: Nodes, order: seq<Id>, reason: string)
    requires forall id :: id in order ==> (id in a <==> id in b) && (id in a ==> a[id] == b[id])
    ensures Cancellations(a, order, reason) == Cancellations(b, order, reason)
    decreases |order|
  {
    if order != [] {
      CancellationsOfOthers(a, b, order[1..], reason);
      assert order[0] in order;
    }
  }

  lemma {:induction false} CloseIsOrderly(nodes: Nodes, c: Closing, order: seq<Id>, reason: string)
    requires Enumerates(order, c.done) && c.done <= LiveAmong(nodes, nodes.Keys)
    requires c.stopped.Some? ==> c.stopped.value in LiveAmong(nodes, nodes.Keys) - c.done
    ensures Orderly(nodes, CloseWrites(nodes, c, order, reason), CanceledIn(nodes, c.done, reason), c.stopped.Some?, false)
    decreases |order|
  {
    hide LegalCommit, CanceledNode;
    if order == [] {
      assert c.done == {};
      assert CanceledIn(nodes, {}, reason) == nodes;
      if c.stopped.Some? {
        LiveMayCancel(nodes, c.stopped.value, reason);
        assert CloseWrites(nodes, c, order, reason)[1..] == [];
      }
    } else {
      var id := order[0];
      assert id in order;
      LiveMayCancel(nodes, id, reason);
      var after := nodes[id := CanceledNode(nodes[id], reason)];
      var rest := c.(done := c.done - {id});
      RestEnumerates(order, c.done);
      CloseIsOrderly(after, rest, order[1..], reason);
      CancellationsOfOthers(nodes, after, order[1..], reason);
      assert CanceledIn(after, rest.done, reason) == CanceledIn(nodes, c.done, reason);
      assert CloseWrites(nodes, c, order, reason)[1..] == CloseWrites(after, rest, order[1..], reason);
    }
  }

  lemma RestEnumerates(order: seq<Id>, ids: set<Id>)
    requires order != [] && Enumerates(order, ids)
    ensures Enumerates(order[1..], ids - {order[0]}) && order[0] !in order[1..]
  {
    forall id ensures id in order[1..] <==> id in ids && id != order[0] {
      if id in ids && id != order[0] {
        var k :| 0 <= k < |order| && order[k] == id;
        assert order[1..][k - 1] == id;
      }
    }
  }

  lemma ClosingIsOrderly(s: Exec, c: Closing, order: seq<Id>, reason: string, ids: set<Id>)
    requires ClosingPossible(s, ids, c) && Enumerates(order, c.done)
    ensures Orderly(s.nodes, ClosingWrites(s, c, order, reason), Close(s, c, reason).nodes, !s.loop.failed && c.stopped.Some?, false)
  {
    if s.loop.failed { assert CanceledIn(s.nodes, {}, reason) == s.nodes; }
    else { CloseIsOrderly(s.nodes, c, order, reason); }
  }

  lemma CommitIsOrderly(s: Exec, id: Id, next: Node, ok: bool, c: Closing, order: seq<Id>, reason: string)
    requires id in s.nodes && LegalCommit(s.nodes[id], next) && Enumerates(order, c.done)
    requires ClosesBelow(s, id, next, ok, c)
    ensures var s' := CommitAndClose(s, id, next, ok, c, reason);
            Orderly(s.nodes, CommitWrites(s, id, next, ok, c, order, reason), s'.nodes, !s.loop.failed && s'.loop.failed, false)
  {
    if Accepted(s, ok) {
      var writes := CloseWrites(s.nodes[id := next], c, order, reason);
      CloseIsOrderly(s.nodes[id := next], c, order, reason);
      hide Orderly, CloseWrites, LegalCommit, ClosesBelow, ClosingPossible;
      WriteThen(s.nodes, Write(id, next, true), writes, CanceledIn(s.nodes[id := next], c.done, reason), c.stopped.Some?);
    } else {
      hide ClosesBelow;
      OneIsOrderly(s, id, next, ok, false);
    }
  }

  lemma WriteThen(a: Nodes, w: Write, writes: seq<Write>, b: Nodes, refused: bool)
    requires w.id in a && Permitted(a[w.id], w.next, false) && w.ok && Orderly(a[w.id := w.next], writes, b, refused, false)
    ensures Orderly(a, [w] + writes, b, refused, false)
  {
    hide Permitted;
    assert ([w] + writes)[1..] == writes;
  }

  // ---- Every step sends its writes in turn ----------------------------------

  /** The step's transitions are the whole of what it changes: they lead from the graph before
      to the graph after, and the run has failed if and only if one was refused. */
  ghost predicate Explained(s: Exec, step: Step, s': Exec, order: seq<Id>) {
    && Orderly(s.nodes, Sent(s, step, order), s'.nodes, !s.loop.failed && s'.loop.failed, step.DispatchFailAgain?)
    && (s.loop.failed ==> Sent(s, step, order) == [] && s'.loop.failed)
  }

  lemma DispatchExplained(s: Exec, step: Step, s': Exec, order: seq<Id>)
    requires DispatchStep(step) && DispatchNext(s, step, s')
    ensures Explained(s, step, s', order)
  {
    hide Orderly, LostEntries, AllDone, Lost;
    var n := s.nodes[step.id];
    var next := if step.DispatchReady? then MadeReady(n) else if step.DispatchFail? then FailedPrerequisite(n) else n;
    assert Permitted(n, next, step.DispatchFailAgain?);
    hide Permitted;
    OneIsOrderly(s, step.id, next, step.ok, step.DispatchFailAgain?);
  }

  lemma ImageExplained(s: Exec, t: TaskId, ok: bool)
    requires t in s.tasks && s.tasks[t].node in s.nodes && !s.nodes[s.tasks[t].node].Terminal()
    ensures var s' := ImageOrAcquire(s, t, ok);
            && Orderly(s.nodes, ImageWrites(s, t, ok), s'.nodes, !s.loop.failed && s'.loop.failed, false)
            && (s.loop.failed ==> ImageWrites(s, t, ok) == [] && s'.loop.failed)
  {
    var id := s.tasks[t].node;
    OneIsOrderly(s, id, WaitingForImage(s.nodes[id]), ok, false);
    NothingSent(s);
    hide Orderly;
  }

  lemma BeginExplained(s: Exec, t: TaskId, ok: bool, s': Exec, order: seq<Id>)
    requires EarlyNext(s, BeginTask(t, ok), s')
    ensures Explained(s, BeginTask(t, ok), s', order)
  {
    NothingSent(s);
    var n := s.nodes[s.tasks[t].node];
    if n.state.Ready? { ImageExplained(s, t, ok); }
    hide Orderly, ImageOrAcquire;
  }

  lemma LookedUpExplained(s: Exec, t: TaskId, found: Lookup, ok: bool, c: Closing, s': Exec, order: seq<Id>)
    requires EarlyNext(s, LookedUp(t, found, ok, c), s') && Enumerates(order, c.done)
    ensures Explained(s, LookedUp(t, found, ok, c), s', order)
  {
    NothingSent(s);
    if !Abandons(s, t) {
      ImageExplained(s, t, ok);
      if found.Hit? { EndExplained(s, t, HitNode(s.nodes[s.tasks[t].node], found), ok, c, order, "parent action completed"); }
    }
    hide Orderly, ImageOrAcquire, CommitAndClose, ClosesBelow, Enumerates;
  }

  /** A goroutine ends with a commit and a close below its node. */
  lemma EndExplained(s: Exec, t: TaskId, next: Node, ok: bool, c: Closing, order: seq<Id>, reason: string)
    requires t in s.tasks && s.tasks[t].node in s.nodes && LegalCommit(s.nodes[s.tasks[t].node], next)
    requires ClosesBelow(s, s.tasks[t].node, next, ok, c) && Enumerates(order, c.done)
    ensures var s' := CommitAndClose(Exit(s, t), s.tasks[t].node, next, ok, c, reason);
            && Orderly(s.nodes, CommitWrites(s, s.tasks[t].node, next, ok, c, order, reason), s'.nodes, !s.loop.failed && s'.loop.failed, false)
            && (s.loop.failed ==> CommitWrites(s, s.tasks[t].node, next, ok, c, order, reason) == [] && s'.loop.failed)
  {
    hide Orderly, ClosesBelow, Enumerates, LegalCommit, CloseWrites, CommitAndClose;
    CommitIsOrderly(s, s.tasks[t].node, next, ok, c, order, reason);
    SameCommit(s, Exit(s, t), s.tasks[t].node, next, ok, c, reason);
  }

  lemma EnsuredExplained(s: Exec, t: TaskId, failure: Option<string>, ok: bool, c: Closing, s': Exec, order: seq<Id>)
    requires EarlyNext(s, Ensured(t, failure, ok, c), s') && Enumerates(order, c.done)
    ensures Explained(s, Ensured(t, failure, ok, c), s', order)
  {
    NothingSent(s);
    if !Abandons(s, t) {
      var id := s.tasks[t].node;
      OneIsOrderly(s, id, MadeReady(s.nodes[id]), ok, false);
      if failure.Some? { EndExplained(s, t, ImageFailed(s.nodes[id], failure.value), ok, c, order, "parent action failed"); }
    }
    hide Orderly, CommitAndClose, ClosesBelow, Enumerates;
  }

  lemma EarlyExplained(s: Exec, step: Step, s': Exec, order: seq<Id>)
    requires EarlyStep(step) && EarlyNext(s, step, s') && Ordered(step, order)
    ensures Explained(s, step, s', order)
  {
    hide Explained, Enumerates;
    if step.BeginTask? { BeginExplained(s, step.t, step.ok, s', order); }
    else if step.LookedUp? { LookedUpExplained(s, step.t, step.found, step.ok, step.c, s', order); }
    else if step.Ensured? { EnsuredExplained(s, step.t, step.imageFailure, step.ok, step.c, s', order); }
    else { AbortExplained(s, step.t, s', order); }
  }

  lemma AbortExplained(s: Exec, t: TaskId, s': Exec, order: seq<Id>)
    requires EarlyNext(s, AcquireAborted(t), s')
    ensures Explained(s, AcquireAborted(t), s', order)
  {
    NothingSent(s);
    hide Orderly;
  }

  lemma FinishExplained(s: Exec, t: TaskId, ok: bool, c: Closing, order: seq<Id>)
    requires Inv(s) && At(s, t, Returned) && Enumerates(order, c.done)
    requires AttemptStands(s, t) && !OutcomeOf(s, t).state.Pending? ==> ClosesBelow(s, s.tasks[t].node, OutcomeOf(s, t), ok, c)
    ensures Explained(s, FinishTask(t, ok, c), Finish(s, t, ok, c), order)
  {
    if AttemptStands(s, t) { AttemptIsLegal(s, t); }
    hide Inv, LegalCommit, ClosesBelow, Enumerates, Explained, AttemptStands, OutcomeOf, Finish;
    if !AttemptStands(s, t) { StaleExplained(s, t, ok, c, order); }
    else if OutcomeOf(s, t).state.Pending? { RetryExplained(s, t, ok, c, order); }
    else { OutcomeExplained(s, t, ok, c, order); }
  }

  lemma AttemptIsLegal(s: Exec, t: TaskId)
    requires Inv(s) && At(s, t, Returned) && AttemptStands(s, t)
    ensures LegalCommit(s.nodes[s.tasks[t].node], OutcomeOf(s, t))
  {
    hide AttemptStands, OutcomeOf, LegalCommit, NodesOk;
    assert TaskOk(s, t);
    hide Inv, TaskOk;
    OutcomeIsLegal(s, t);
  }

  lemma StaleExplained(s: Exec, t: TaskId, ok: bool, c: Closing, order: seq<Id>)
    requires At(s, t, Returned) && !AttemptStands(s, t)
    ensures Explained(s, FinishTask(t, ok, c), Finish(s, t, ok, c), order)
  {
    hide Orderly, AttemptStands, OutcomeOf;
    NothingSent(s);
  }

  lemma RetryExplained(s: Exec, t: TaskId, ok: bool, c: Closing, order: seq<Id>)
    requires At(s, t, Returned) && AttemptStands(s, t) && OutcomeOf(s, t).state.Pending?
    requires LegalCommit(s.nodes[s.tasks[t].node], OutcomeOf(s, t))
    ensures Explained(s, FinishTask(t, ok, c), Finish(s, t, ok, c), order)
  {
    hide Orderly, AttemptStands, OutcomeOf, LegalCommit, Retry;
    OneIsOrderly(s, s.tasks[t].node, OutcomeOf(s, t), ok, false);
    RetryWrites(Leave(s, t), s.tasks[t].node, OutcomeOf(s, t));
  }

  lemma OutcomeExplained(s: Exec, t: TaskId, ok: bool, c: Closing, order: seq<Id>)
    requires At(s, t, Returned) && AttemptStands(s, t) && !OutcomeOf(s, t).state.Pending?
    requires LegalCommit(s.nodes[s.tasks[t].node], OutcomeOf(s, t))
    requires ClosesBelow(s, s.tasks[t].node, OutcomeOf(s, t), ok, c) && Enumerates(order, c.done)
    ensures Explained(s, FinishTask(t, ok, c), Finish(s, t, ok, c), order)
  {
    hide Orderly, AttemptStands, OutcomeOf, LegalCommit, ClosesBelow, Enumerates, CommitAndClose, CloseWrites;
    var id, next := s.tasks[t].node, OutcomeOf(s, t);
    CommitIsOrderly(s, id, next, ok, c, order, "parent action completed");
    SameCommit(s, Leave(s, t), id, next, ok, c, "parent action completed");
  }

  lemma RetryWrites(s: Exec, id: Id, next: Node)
    ensures Retry(s, id, next).nodes == s.nodes[id := next] && Retry(s, id, next).loop.failed == s.loop.failed
  {
  }

  /** What a commit and a close do to the graph depends on the graph and on earlier failures. */
  lemma SameCommit(s: Exec, s0: Exec, id: Id, next: Node, ok: bool, c: Closing, reason: string)
    requires s0.nodes == s.nodes && s0.loop == s.loop
    ensures CommitAndClose(s0, id, next, ok, c, reason).nodes == CommitAndClose(s, id, next, ok, c, reason).nodes
    ensures CommitAndClose(s0, id, next, ok, c, reason).loop == CommitAndClose(s, id, next, ok, c, reason).loop
    ensures s.loop.failed ==> CommitAndClose(s, id, next, ok, c, reason) == s
  {
  }

  lemma OutcomeIsLegal(s: Exec, t: TaskId)
    requires At(s, t, Returned) && AttemptStands(s, t) && TaskOk(s, t)
    ensures LegalCommit(s.nodes[s.tasks[t].node], OutcomeOf(s, t))
  {
  }

  lemma LateExplained(s: Exec, step: Step, s': Exec, order: seq<Id>)
    requires Inv(s) && LateStep(step) && LateNext(s, step, s') && Ordered(step, order)
    ensures Explained(s, step, s', order)
  {
    hide Inv, Explained, Enumerates;
    if step.Launch? { LaunchExplained(s, step.t, step.ok, s', order); }
    else if step.FinishTask? { FinishExplained(s, step.t, step.ok, step.c, order); }
    else { SilentLate(s, step, s', order); }
  }

  lemma SilentLate(s: Exec, step: Step, s': Exec, order: seq<Id>)
    requires LateStep(step) && LateNext(s, step, s') && (step.Acquire? || step.Return?)
    ensures Explained(s, step, s', order)
  {
    NothingSent(s);
    hide Orderly;
  }

  lemma LaunchExplained(s: Exec, t: TaskId, ok: bool, s': Exec, order: seq<Id>)
    requires LateNext(s, Launch(t, ok), s')
    ensures Explained(s, Launch(t, ok), s', order)
  {
    NothingSent(s);
    var id := s.tasks[t].node;
    if s.nodes[id].state.Ready? { OneIsOrderly(s, id, StartedNode(s.nodes[id]), ok, false); }
    hide Orderly;
  }

  /** A call that has its slot back acts for an attempt in progress. */
  lemma ReclaimIsLegal(s: Exec, k: CallId)
    requires Goroutines(s) && CallAt(s, k, GotSlot) && s.calls[k].parent in s.nodes && CanReclaim(s, k)
    ensures LegalCommit(s.nodes[s.calls[k].parent], Resuming(s.nodes[s.calls[k].parent]))
  {
    assert CallOk(s, k) && TaskOk(s, s.calls[k].task);
    hide Goroutines;
  }

  lemma RestoreExplained(s: Exec, k: CallId, ok: bool, s': Exec, order: seq<Id>)
    requires Goroutines(s) && CallNext(s, Restore(k, ok), s')
    ensures Explained(s, Restore(k, ok), s', order)
  {
    hide Goroutines, LegalCommit, Over;
    NothingSent(s);
    var parent := s.calls[k].parent;
    if CanReclaim(s, k) {
      ReclaimIsLegal(s, k);
      OneIsOrderly(s, parent, Resuming(s.nodes[parent]), ok, false);
    }
    hide Orderly, CanReclaim;
  }

  lemma WaitExplained(s: Exec, step: Step, s': Exec, order: seq<Id>)
    requires CallStep(step) && CallNext(s, step, s') && step.WaitStart?
    ensures Explained(s, step, s', order)
  {
    NothingSent(s);
    var n := s.nodes[step.parent];
    OneIsOrderly(s, step.parent, WaitingForChildren(n), step.ok, false);
    hide Orderly;
  }

  lemma CancelsExplained(s: Exec, step: Step, s': Exec, order: seq<Id>)
    requires CloseStep(step) && CloseNext(s, step, s') && Ordered(step, order)
    ensures Explained(s, step, s', order)
  {
    hide Explained, Enumerates;
    if step.CancelTree? { CancelTreeExplained(s, step.id, step.ok, step.c, s', order); }
    else { CloseAllExplained(s, step, s', order); }
  }

  lemma CloseAllExplained(s: Exec, step: Step, s': Exec, order: seq<Id>)
    requires CloseStep(step) && CloseNext(s, step, s') && (step.ReturnByRoot? || step.CancelAll?) && Enumerates(order, step.c.done)
    ensures Explained(s, step, s', order)
  {
    hide Orderly, CloseSet, ClosingPossible, Enumerates, ClosingWrites, Close;
    var reason := if step.CancelAll? then "run canceled" else "root action completed";
    ClosingIsOrderly(s, step.c, order, reason, CloseSet(s.nodes, NIL));
    ClosingStops(s, step.c, order, reason);
  }

  lemma CancelTreeExplained(s: Exec, id: Id, ok: bool, c: Closing, s': Exec, order: seq<Id>)
    requires CloseNext(s, CancelTree(id, ok, c), s') && Enumerates(order, c.done)
    ensures Explained(s, CancelTree(id, ok, c), s', order)
  {
    hide CloseSet, ClosingPossible, ClosesBelow, Orderly, Enumerates, Close, ClosingWrites, CommitAndClose, CloseWrites;
    if s.nodes[id].Terminal() {
      ClosingIsOrderly(s, c, order, "ancestor canceled", CloseSet(s.nodes, id));
      ClosingStops(s, c, order, "ancestor canceled");
    } else {
      CommitIsOrderly(s, id, CanceledAction(s.nodes[id]), ok, c, order, "ancestor canceled");
      SameCommit(s, CancelAttempt(s, id), id, CanceledAction(s.nodes[id]), ok, c, "ancestor canceled");
    }
  }

  lemma ClosingStops(s: Exec, c: Closing, order: seq<Id>, reason: string)
    ensures Close(s, c, reason).loop.failed == (s.loop.failed || c.stopped.Some?)
    ensures s.loop.failed ==> ClosingWrites(s, c, order, reason) == []
  {
  }

  /** Every step of an executor reaches the store as the transitions it sends, each of them one
      a worker may ask for; together they are all it changes. */
  lemma StepIsExplained(s: Exec, step: Step, s': Exec, order: seq<Id>)
    requires Inv(s) && Next(s, step, s') && !step.AddNode? && Ordered(step, order)
    ensures Explained(s, step, s', order)
  {
    hide Inv, Explained, Ordered, LoopNext, ClockNext, DispatchNext, EarlyNext, LateNext, CallNext, CloseNext, AddNext;
    if DispatchStep(step) { DispatchExplained(s, step, s', order); }
    else if EarlyStep(step) { EarlyExplained(s, step, s', order); }
    else if LateStep(step) { LateExplained(s, step, s', order); }
    else if CloseStep(step) { CancelsExplained(s, step, s', order); }
    else if CallStep(step) { CallExplained(s, step, s', order); }
    else { SilentExplained(s, step, s', order); }
  }

  lemma CallExplained(s: Exec, step: Step, s': Exec, order: seq<Id>)
    requires Inv(s) && CallStep(step) && CallNext(s, step, s')
    ensures Explained(s, step, s', order)
  {
    GoroutinesOf(s);
    hide Inv, Explained, Goroutines, CallNext;
    if step.WaitStart? { WaitExplained(s, step, s', order); }
    else if step.Restore? { RestoreExplained(s, step.k, step.ok, s', order); }
    else { QuietCallExplained(s, step, s', order); }
  }

  lemma QuietCallExplained(s: Exec, step: Step, s': Exec, order: seq<Id>)
    requires CallStep(step) && CallNext(s, step, s') && !step.WaitStart? && !step.Restore?
    ensures Explained(s, step, s', order)
  {
    NothingSent(s);
    hide Orderly, ParentActive, Over;
  }

  lemma SilentExplained(s: Exec, step: Step, s': Exec, order: seq<Id>)
    requires if LoopStep(step) then LoopNext(s, step, s') else ClockStep(step) && ClockNext(s, step, s')
    ensures Explained(s, step, s', order)
  {
    NothingSent(s);
    hide Orderly, Settled, RootLive;
  }

  // ---- Everything a run sends -----------------------------------------------

  /** What the acknowledged writes of a log say last of a node. */
  function Latest(log: seq<Write>, id: Id): Option<Node>
    decreases |log|
  {
    if log == [] then None
    else
      var w := log[|log| - 1];
      if w.id == id && w.ok then Some(w.next) else Latest(log[..|log| - 1], id)
  }

  /** The store refused the last write, and none before it. */
  predicate Refused(log: seq<Write>) {
    log != [] && !log[|log| - 1].ok
  }

  predicate OnlyLastRefused(log: seq<Write>) {
    forall i :: 0 <= i < |log| - 1 ==> log[i].ok
  }

  lemma {:induction false} LatestOfBoth(a: seq<Write>, b: seq<Write>, id: Id)
    ensures Latest(a + b, id) == if Latest(b, id).Some? then Latest(b, id) else Latest(a, id)
    decreases |b|
  {
    if b == [] {
      assert a + b == a;
    } else {
      assert (a + b)[..|a + b| - 1] == a + b[..|b| - 1];
      LatestOfBoth(a, b[..|b| - 1], id);
    }
  }

  lemma {:induction false} OrderlyTells(a: Nodes, writes: seq<Write>, b: Nodes, refused: bool, again: bool, id: Id)
    requires Orderly(a, writes, b, refused, again)
    ensures (id in a <==> id in b) && (Latest(writes, id).Some? ==> id in a)
    ensures id in b ==> b[id] == if Latest(writes, id).Some? then Latest(writes, id).value else a[id]
    ensures (refused <==> Refused(writes)) && OnlyLastRefused(writes)
    decreases |writes|
  {
    hide Permitted;
    if writes != [] {
      var w := writes[0];
      assert writes == [w] + writes[1..] && [w][..0] == [];
      if w.ok { OrderlyTells(a[w.id := w.next], writes[1..], b, refused, again, id); }
      LatestOfBoth([w], writes[1..], id);
    }
  }

  /** The node before any write of the run: as in the snapshot, or as added. */
  ghost predicate Unwritten(trace: seq<Exec>, steps: seq<Step>, i: nat, id: Id, n: Node)
    requires 0 < |trace| && i <= |steps|
  {
    || (id in trace[0].nodes && n == trace[0].nodes[id])
    || exists k :: 0 <= k < i && steps[k].AddNode? && steps[k].id == id
                   && n == steps[k].node.(spec := steps[k].node.spec.(parent := Some(steps[k].parent)))
  }

  /** The graph of a run is what the acknowledged transitions sent so far make of the snapshot
      and the added nodes, and the run has failed exactly if the store refused the last of them:
      after a refusal nothing more is sent. */
  ghost predicate Told(trace: seq<Exec>, steps: seq<Step>, i: nat, log: seq<Write>, id: Id)
    requires i < |trace| && i <= |steps|
  {
    && (trace[i].loop.failed <==> Refused(log)) && OnlyLastRefused(log)
    && (id in trace[i].nodes ==>
          if Latest(log, id).Some? then trace[i].nodes[id] == Latest(log, id).value
          else Unwritten(trace, steps, i, id, trace[i].nodes[id]))
    && (id in trace[0].nodes ==> id in trace[i].nodes) && (Latest(log, id).Some? ==> id in trace[i].nodes)
  }

  lemma RunIsTold(trace: seq<Exec>, steps: seq<Step>, orders: seq<seq<Id>>, log: seq<Write>, id: Id)
    requires GoodRun(trace, steps) && IsLog(trace, steps, orders, log)
    ensures Told(trace, steps, |steps|, log, id)
  {
    hide Next, Told, Tree;
    PrefixIsTold(trace, steps, orders, |steps|, id);
    assert steps[..|steps|] == steps && orders[..|steps|] == orders;
  }

  lemma {:induction false} PrefixIsTold(trace: seq<Exec>, steps: seq<Step>, orders: seq<seq<Id>>, i: nat, id: Id)
    requires GoodRun(trace, steps) && |steps| == |orders| == |trace| - 1 && i <= |steps|
    requires forall k :: 0 <= k < |steps| ==> Ordered(steps[k], orders[k])
    ensures Told(trace, steps, i, Logged(trace, steps[..i], orders[..i]), id)
  {
    if i == 0 {
      hide Next, Tree, TimersArmed;
      assert steps[..0] == [] && orders[..0] == [];
    } else {
      hide *;
      PrefixIsTold(trace, steps, orders, i - 1, id);
      LogOfNext(trace, steps, orders, i - 1);
      StepIsTold(trace, steps, i - 1, Logged(trace, steps[..i - 1], orders[..i - 1]), orders[i - 1], id);
    }
  }

  lemma LogOfNext(trace: seq<Exec>, steps: seq<Step>, orders: seq<seq<Id>>, i: nat)
    requires |steps| == |orders| == |trace| - 1 && i < |steps|
    ensures Logged(trace, steps[..i + 1], orders[..i + 1]) == Logged(trace, steps[..i], orders[..i]) + Sent(trace[i], steps[i], orders[i])
  {
    hide Sent;
    assert steps[..i + 1][..i] == steps[..i] && orders[..i + 1][..i] == orders[..i];
  }

  lemma StepIsTold(trace: seq<Exec>, steps: seq<Step>, i: nat, log: seq<Write>, order: seq<Id>, id: Id)
    requires GoodRun(trace, steps) && i < |steps| < |trace| && Ordered(steps[i], order)
    requires Told(trace, steps, i, log, id)
    ensures Told(trace, steps, i + 1, log + Sent(trace[i], steps[i], order), id)
  {
    hide Inv, Next, GoodRun, Sent, Ordered, Orderly, Explained;
    RunInv(trace, steps, i);
    NthStep(trace, steps, i);
    var s, step, s', sent := trace[i], steps[i], trace[i + 1], Sent(trace[i], steps[i], order);
    LatestOfBoth(log, sent, id);
    if step.AddNode? {
      AddedNode(s, step, s');
      QuietSends(s, step, order);
      assert log + [] == log && step.id !in s.nodes by { AddIs(s, step, s'); }
    } else {
      StepIsExplained(s, step, s', order);
      ExplainedTells(s, step, s', order, id);
    }
  }

  lemma ExplainedTells(s: Exec, step: Step, s': Exec, order: seq<Id>, id: Id)
    requires Explained(s, step, s', order)
    ensures var sent := Sent(s, step, order);
            && (id in s.nodes <==> id in s'.nodes) && (Latest(sent, id).Some? ==> id in s.nodes)
            && (id in s'.nodes ==> s'.nodes[id] == if Latest(sent, id).Some? then Latest(sent, id).value else s.nodes[id])
            && (!s.loop.failed && s'.loop.failed <==> Refused(sent)) && OnlyLastRefused(sent)
            && (s.loop.failed ==> sent == [] && s'.loop.failed)
  {
    hide Orderly, Sent;
    OrderlyTells(s.nodes, Sent(s, step, order), s'.nodes, !s.loop.failed && s'.loop.failed, step.DispatchFailAgain?, id);
  }

  // ---- One write of a step --------------------------------------------------

  lemma {:induction false} OrderlyAt(a: Nodes, writes: seq<Write>, b: Nodes, refused: bool, again: bool, m: nat)
    requires Orderly(a, writes, b, refused, again) && m < |writes|
    ensures var nodes := After(a, writes[..m]);
            writes[m].id in nodes && Permitted(nodes[writes[m].id], writes[m].next, again)
    ensures !writes[m].ok ==> m == |writes| - 1 && refused
    decreases |writes|
  {
    hide Permitted;
    if m == 0 {
      assert writes[..0] == [];
    } else {
      assert writes[..m][0] == writes[0] && writes[..m][1..] == writes[1..][..m - 1];
      assert writes[1..] != [];
      OrderlyAt(a[writes[0].id := writes[0].next], writes[1..], b, refused, again, m - 1);
      assert writes[1..][m - 1] == writes[m];
    }
  }

  /** What comes before a write was acknowledged and leads to the graph it finds. */
  lemma {:induction false} OrderlyBefore(a: Nodes, writes: seq<Write>, b: Nodes, refused: bool, again: bool, m: nat)
    requires Orderly(a, writes, b, refused, again) && m < |writes|
    ensures Orderly(a, writes[..m], After(a, writes[..m]), false, again)
    decreases |writes|
  {
    hide Permitted;
    if m == 0 {
      assert writes[..0] == [];
    } else {
      assert writes[..m][0] == writes[0] && writes[..m][1..] == writes[1..][..m - 1];
      assert writes[1..] != [];
      OrderlyBefore(a[writes[0].id := writes[0].next], writes[1..], b, refused, again, m - 1);
    }
  }

  /** The graph a write of a step finds. */
  function Found(s: Exec, step: Step, order: seq<Id>, m: nat): Nodes
    requires m <= |Sent(s, step, order)|
  {
    After(s.nodes, Sent(s, step, order)[..m])
  }

  /** Every transition an executor asks for is of a node it has, and permitted there. */
  lemma WriteIsPermitted(s: Exec, step: Step, s': Exec, order: seq<Id>, m: nat)
    requires Inv(s) && Next(s, step, s') && !step.AddNode? && Ordered(step, order) && m < |Sent(s, step, order)|
    ensures var w := Sent(s, step, order)[m];
            && w.id in Found(s, step, order, m)
            && Permitted(Found(s, step, order, m)[w.id], w.next, step.DispatchFailAgain?)
  {
    StepIsExplained(s, step, s', order);
    OrderlyAt(s.nodes, Sent(s, step, order), s'.nodes, !s.loop.failed && s'.loop.failed, step.DispatchFailAgain?, m);
    hide *;
  }

  // ---- Two lost prerequisites -----------------------------------------------

  /** A transition of a node that has already ended is only ever sent by a scheduling pass that
      finds a second lost entry among the node's prerequisites. */
  lemma RecommitNeedsTwoLost(trace: seq<Exec>, steps: seq<Step>, i: nat, order: seq<Id>, m: nat)
    requires GoodRun(trace, steps) && i < |steps| && |steps| < |trace|
    requires !steps[i].AddNode? && Ordered(steps[i], order) && m < |Sent(trace[i], steps[i], order)|
    ensures var w := Sent(trace[i], steps[i], order)[m];
            && w.id in Found(trace[i], steps[i], order, m)
            && (Found(trace[i], steps[i], order, m)[w.id].Terminal() ==>
                  && steps[i] == DispatchFailAgain(w.id, w.ok)
                  && w.id in trace[i].nodes && LostEntries(trace[i].nodes, w.id, trace[i].nodes[w.id].spec.prerequisites) >= 2)
  {
    hide Inv, Next, GoodRun, Sent, Ordered;
    RunInv(trace, steps, i);
    NthStep(trace, steps, i);
    WriteIsPermitted(trace[i], steps[i], trace[i + 1], order, m);
    if steps[i].DispatchFailAgain? {
      DispatchIs(trace[i], steps[i], trace[i + 1]);
      AgainNeedsTwoLost(trace[i], steps[i], trace[i + 1], order, m);
    }
  }

  lemma AgainNeedsTwoLost(s: Exec, step: Step, s': Exec, order: seq<Id>, m: nat)
    requires DispatchStep(step) && DispatchNext(s, step, s') && step.DispatchFailAgain? && m < |Sent(s, step, order)|
    ensures step.id in s.nodes && LostEntries(s.nodes, step.id, s.nodes[step.id].spec.prerequisites) >= 2
    ensures Sent(s, step, order)[m] == Write(step.id, s.nodes[step.id], step.ok)
  {
    hide LostEntries;
  }

  /** Some entry of the list is lost. */
  lemma {:induction false} SomeLostEntry(nodes: Nodes, id: Id, prerequisites: seq<Id>) returns (p: Id)
    requires LostEntries(nodes, id, prerequisites) >= 1
    ensures p in prerequisites && Lost(nodes, p)
    decreases |prerequisites|
  {
    var n := |prerequisites| - 1;
    if LostEntries(nodes, id, prerequisites[..n]) >= 1 { p := SomeLostEntry(nodes, id, prerequisites[..n]); } else { p := prerequisites[n]; }
  }

  /** A scheduling pass that looks at a due node may commit it as failed twice if and only if two
      entries of its list of prerequisites are lost, an entry for the node itself included once
      the node has failed. */
  lemma FailsTwiceExactly(s: Exec, id: Id)
    requires s.loop.scheduler.Scheduling? && !s.loop.failed && id in s.nodes && Due(s.nodes[id], s.loop.now)
    ensures (exists p, s1, s2 :: Next(s, DispatchFail(id, p, true), s1) && Next(s1, DispatchFailAgain(id, true), s2))
            <==> LostEntries(s.nodes, id, s.nodes[id].spec.prerequisites) >= 2
  {
    hide LostEntries;
    var entries := s.nodes[id].spec.prerequisites;
    var s1 := FailPending(s, id, true);
    FailedEntries(s.nodes, s1.nodes, id, entries);
    if LostEntries(s.nodes, id, entries) >= 2 {
      var p := SomeLostEntry(s.nodes, id, entries);
      assert Next(s, DispatchFail(id, p, true), s1);
      assert Next(s1, DispatchFailAgain(id, true), Commit(s1, id, s1.nodes[id], true));
    }
  }

  /** It does happen: a node under the root that needs two nodes that have failed. */
  lemma SomeRunFailsTwice(failed: Node) returns (trace: seq<Exec>, steps: seq<Step>)
    requires failed.state.Failed? && failed.spec.parent == Some(1) && failed.spec.prerequisites == []
    ensures GoodRun(trace, steps) && |steps| == 2
    ensures steps[0].DispatchFail? && steps[0].id == 4 && steps[1] == DispatchFailAgain(4, true)
  {
    hide Next, Tree;
    var nodes := TwoFailures(failed);
    var s0 := Start(nodes, 1, 0, {});
    TwoEntries(nodes);
    FailsTwiceExactly(s0, 4);
    var p, s1, s2 :| Next(s0, DispatchFail(4, p, true), s1) && Next(s1, DispatchFailAgain(4, true), s2);
    trace, steps := [s0, s1, s2], [DispatchFail(4, p, true), DispatchFailAgain(4, true)];
  }

  lemma TwoEntries(nodes: Nodes)
    requires Lost(nodes, 2) && Lost(nodes, 3)
    ensures LostEntries(nodes, 4, [2, 3]) == 2
  {
    var list: seq<Id> := [2, 3];
    assert list[..1] == [2];
    assert LostEntries(nodes, 4, [2]) == 1;
  }

  /** Two failed nodes and, below the same root, one that needs both. */
  lemma TwoFailures(failed: Node) returns (nodes: Nodes)
    requires failed.state.Failed? && failed.spec.parent == Some(1) && failed.spec.prerequisites == []
    ensures Tree(nodes, 1) && 4 in nodes && Lost(nodes, 2) && Lost(nodes, 3)
    ensures nodes[4].state.Pending? && nodes[4].nextAttemptAt == 0 && nodes[4].spec.prerequisites == [2, 3]
    ensures TimersArmed(nodes, {}, 0)
  {
    var root := failed.(state := Pending, nextAttemptAt := 0, spec := failed.spec.(parent := None));
    var waiting := failed.(state := Pending, nextAttemptAt := 0, spec := failed.spec.(prerequisites := [2, 3]));
    var n1: Nodes := map[1 := root];
    AloneIsTree(n1, 1);
    LeafKeepsTree(n1, 1, 2, failed);
    LeafKeepsTree(n1[2 := failed], 1, 3, failed);
    LeafKeepsTree(n1[2 := failed][3 := failed], 1, 4, waiting);
    nodes := n1[2 := failed][3 := failed][4 := waiting];
    hide Tree;
    ClosureIsLocal(nodes);
  }

  lemma AloneIsTree(nodes: Nodes, root: Id)
    requires nodes.Keys == {root} && nodes[root].spec.parent == None
    ensures Tree(nodes, root)
  {
    forall id, path | id in nodes ensures !Chain(nodes, id, id, path) {
      if |path| >= 2 { assert !ChildOf(nodes, path[0 + 1], path[0]); }
    }
  }

  /** The snapshot and every added node are without prerequisites. */
  predicate Plain(nodes: Nodes) {
    forall id :: id in nodes ==> nodes[id].spec.prerequisites == []
  }

  ghost predicate PlainRun(trace: seq<Exec>, steps: seq<Step>) {
    && GoodRun(trace, steps) && Plain(trace[0].nodes)
    && forall k :: 0 <= k < |steps| && steps[k].AddNode? ==> steps[k].node.spec.prerequisites == []
  }

  lemma PlainStep(s: Exec, step: Step, s': Exec)
    requires Inv(s) && Next(s, step, s') && Plain(s.nodes) && (step.AddNode? ==> step.node.spec.prerequisites == [])
    ensures Plain(s'.nodes)
  {
    hide Inv, Next;
    StepKept(s, step, s');
    if step.AddNode? { AddedNode(s, step, s'); }
  }

  lemma AddedNode(s: Exec, step: Step, s': Exec)
    requires Next(s, step, s') && step.AddNode?
    ensures s'.nodes == s.nodes[step.id := step.node.(spec := step.node.spec.(parent := Some(step.parent)))]
    ensures s'.loop.failed == s.loop.failed
  {
    hide Next;
    AddIs(s, step, s');
  }

  lemma {:induction false} RunStaysPlain(trace: seq<Exec>, steps: seq<Step>, i: nat)
    requires PlainRun(trace, steps) && i < |trace|
    ensures Plain(trace[i].nodes)
  {
    hide Inv, Next, Tree;
    if i > 0 {
      RunStaysPlain(trace, steps, i - 1);
      RunInv(trace, steps, i - 1);
      PlainStep(trace[i - 1], steps[i - 1], trace[i]);
    }
  }

  /** Without prerequisites no node that has ended is ever committed again. */
  lemma PlainRunNeverRecommits(trace: seq<Exec>, steps: seq<Step>, i: nat, order: seq<Id>, m: nat)
    requires PlainRun(trace, steps) && i < |steps| && |steps| < |trace|
    requires !steps[i].AddNode? && Ordered(steps[i], order) && m < |Sent(trace[i], steps[i], order)|
    ensures var w := Sent(trace[i], steps[i], order)[m];
            w.id in Found(trace[i], steps[i], order, m) && !Found(trace[i], steps[i], order, m)[w.id].Terminal()
  {
    hide Inv, Next, GoodRun, Sent, Ordered, Found;
    RunStaysPlain(trace, steps, i);
    RecommitNeedsTwoLost(trace, steps, i, order, m);
    var w := Sent(trace[i], steps[i], order)[m];
    if w.id in trace[i].nodes { NothingLost(trace[i].nodes, w.id, trace[i].nodes[w.id].spec.prerequisites); }
  }
}
