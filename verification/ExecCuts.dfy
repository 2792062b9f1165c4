/** What a step leaves behind when its executor stops in the middle of its transitions. */
module ExecCuts {
  import opened Base
  import opened Graph
  import opened Exec
  import opened ExecInvariants
  import opened ExecSteps
  import opened ExecWrites
  import opened ExecClosure

  // ---- Closes cut short -----------------------------------------------------

  function Elements(order: seq<Id>): set<Id> {
    set id | id in order
  }

  /** Canceling one node and then others is canceling them all. */
  lemma CancelOneMore(nodes: Nodes, id: Id, rest: set<Id>, reason: string)
    requires id in nodes && id !in rest
    ensures CanceledIn(nodes[id := CanceledNode(nodes[id], reason)], rest, reason) == CanceledIn(nodes, {id} + rest, reason)
  {
    hide CanceledNode;
  }

  lemma ElementsOf(order: seq<Id>, m: nat)
    requires 0 < m <= |order|
    ensures Elements(order[..m]) == {order[0]} + Elements(order[1..][..m - 1])
  {
    assert order[..m] == [order[0]] + order[1..][..m - 1];
  }

  lemma CancelNone(nodes: Nodes, reason: string)
    ensures CanceledIn(nodes, Elements([]), reason) == nodes
  {
  }

  /** Nodes of the graph, each once. */
  predicate Listed(nodes: Nodes, order: seq<Id>) {
    (forall id :: id in order ==> id in nodes) && (forall i, j :: 0 <= i < j < |order| ==> order[i] != order[j])
  }

  lemma RestListed(nodes: Nodes, order: seq<Id>, reason: string, m: nat)
    requires Listed(nodes, order) && 0 < m <= |order|
    ensures order[0] in nodes && Listed(nodes[order[0] := CanceledNode(nodes[order[0]], reason)], order[1..])
    ensures order[0] !in Elements(order[1..][..m - 1]) && order[0] !in order[1..]
  {
    assert order[0] in order;
  }

  lemma {:induction false} OneEach(nodes: Nodes, order: seq<Id>, reason: string)
    requires forall id :: id in order ==> id in nodes
    ensures |Cancellations(nodes, order, reason)| == |order|
  {
    hide CanceledNode;
    if order != [] {
      assert order[0] in order;
      OneEach(nodes, order[1..], reason);
    }
  }

  /** After some cancellations of a close, exactly those nodes are canceled. */
  lemma {:induction false} AfterCancellations(nodes: Nodes, order: seq<Id>, reason: string, m: nat)
    requires Listed(nodes, order) && m <= |order| == |Cancellations(nodes, order, reason)|
    ensures After(nodes, Cancellations(nodes, order, reason)[..m]) == CanceledIn(nodes, Elements(order[..m]), reason)
    decreases |order|
  {
    hide CanceledNode, CanceledIn, Elements, Listed;
    if m == 0 {
      CancelNone(nodes, reason);
      assert Cancellations(nodes, order, reason)[..0] == [] && order[..0] == [];
    } else {
      var id := order[0];
      RestListed(nodes, order, reason, m);
      var next := CanceledNode(nodes[id], reason);
      var after := nodes[id := next];
      CancellationsOfOthers(nodes, after, order[1..], reason);
      AfterCancellations(after, order[1..], reason, m - 1);
      AfterFirst(nodes, id, next, Cancellations(after, order[1..], reason), m);
      ElementsOf(order, m);
      CancelOneMore(nodes, id, Elements(order[1..][..m - 1]), reason);
    }
  }

  lemma AfterFirst(nodes: Nodes, id: Id, next: Node, rest: seq<Write>, m: nat)
    requires 0 < m <= |rest| + 1
    ensures After(nodes, ([Write(id, next, true)] + rest)[..m]) == After(nodes[id := next], rest[..m - 1])
  {
    var first := [Write(id, next, true)];
    assert (first + rest)[..m] == first + rest[..m - 1];
    assert (first + rest[..m - 1])[1..] == rest[..m - 1];
  }

  /** What the first `m` transitions of a commit with its close lead to. */
  lemma AfterCut(s: Exec, id: Id, next: Node, c: Closing, order: seq<Id>, reason: string, m: nat)
    requires id in s.nodes && !s.loop.failed && c.Ok() && Enumerates(order, c.done) && c.done <= s.nodes.Keys && 0 < m <= 1 + |order|
    ensures |CommitWrites(s, id, next, true, c, order, reason)| == 1 + |order|
    ensures After(s.nodes, CommitWrites(s, id, next, true, c, order, reason)[..m])
            == CanceledIn(s.nodes[id := next], Elements(order[..m - 1]), reason)
  {
    var w := s.nodes[id := next];
    assert Listed(w, order);
    assert CommitWrites(s, id, next, true, c, order, reason) == [Write(id, next, true)] + Cancellations(w, order, reason);
    OneEach(w, order, reason);
    AfterCancellations(w, order, reason, m - 1);
    hide Enumerates, CanceledIn, Elements, Cancellations, Listed, CommitWrites, After;
    AfterFirst(s.nodes, id, next, Cancellations(w, order, reason), m);
  }

  lemma AllElements(order: seq<Id>, ids: set<Id>)
    requires Enumerates(order, ids)
    ensures Elements(order[..|order|]) == ids
  {
  }

  /** A close from a closed graph that is cut short after `m` transitions leaves the graph closed
      if and only if it had not begun or was complete. */
  lemma CutCloseExactly(s: Exec, id: Id, next: Node, c: Closing, order: seq<Id>, reason: string, m: nat)
    requires id in s.nodes && id != NIL && LegalCommit(s.nodes[id], next) && next.Terminal() && SubtreesClosed(s.nodes)
    requires !s.loop.failed && c.Ok() && Enumerates(order, c.done) && ClosesBelow(s, id, next, true, c)
    requires m <= |CommitWrites(s, id, next, true, c, order, reason)|
    ensures SubtreesClosed(After(s.nodes, CommitWrites(s, id, next, true, c, order, reason)[..m]))
            <==> m == 0 || m == |CommitWrites(s, id, next, true, c, order, reason)|
  {
    assert next.spec == s.nodes[id].spec;
    hide CommitWrites, LegalCommit, SubtreesClosed;
    AfterCut(s, id, next, c, order, reason, 1 + |order|);
    if m > 0 {
      AfterCut(s, id, next, c, order, reason, m);
      if m <= |order| {
        CutIsOpen(s.nodes, id, next, c, order, reason, m - 1);
      } else {
        WholeIsClosed(s, id, next, c, reason);
        AllElements(order, c.done);
      }
    } else {
      assert CommitWrites(s, id, next, true, c, order, reason)[..0] == [];
    }
  }

  lemma CutIsOpen(nodes: Nodes, id: Id, next: Node, c: Closing, order: seq<Id>, reason: string, m: nat)
    requires id in nodes && next.Terminal() && next.spec == nodes[id].spec && Enumerates(order, c.done) && m < |order|
    requires c.done <= LiveAmong(nodes[id := next], Descendants(nodes, id))
    ensures !SubtreesClosed(CanceledIn(nodes[id := next], Elements(order[..m]), reason))
  {
    var b := CanceledIn(nodes[id := next], Elements(order[..m]), reason);
    assert order[m] in order;
    SameLinksSameDescendants(nodes, b, id);
    hide CanceledNode, SameLinks;
    ClosedIsNoneOpen(b);
    assert order[m] in Descendants(b, id) && !b[order[m]].Terminal();
    assert Open(b, id);
  }

  lemma WholeIsClosed(s: Exec, id: Id, next: Node, c: Closing, reason: string)
    requires id in s.nodes && LegalCommit(s.nodes[id], next) && next.Terminal() && SubtreesClosed(s.nodes)
    requires !s.loop.failed && c.Ok() && ClosesBelow(s, id, next, true, c)
    ensures SubtreesClosed(CanceledIn(s.nodes[id := next], c.done, reason))
  {
    var s' := CommitAndClose(s, id, next, true, c, reason);
    CommitEnds(s, s, id, next, true, c, reason);
    CommitAndCloseEvolves(s.nodes, id, next, c.done, reason);
    hide LegalCommit, SubtreesClosed, Open, ClosedBelow, Evolves, ClosesBelow;
    ClosedIsNoneOpen(s.nodes);
    ClosedIsNoneOpen(s'.nodes);
    if p :| Open(s'.nodes, p) { OpenBefore(s.nodes, s'.nodes, p); }
  }

  /** The commit and the close of a step that ends a node. */
  datatype Ending = Ending(id: Id, next: Node, c: Closing, reason: string)

  ghost predicate EndsWith(s: Exec, e: Ending, order: seq<Id>) {
    && e.id in s.nodes && LegalCommit(s.nodes[e.id], e.next) && e.next.Terminal()
    && !s.loop.failed && e.c.Ok() && Enumerates(order, e.c.done) && ClosesBelow(s, e.id, e.next, true, e.c)
  }

  /** The step sends at most one transition, or a commit and its close. */
  ghost predicate SendsOrEnds(s: Exec, step: Step, order: seq<Id>) {
    |Sent(s, step, order)| <= 1
    || exists e :: EndsWith(s, e, order) && Sent(s, step, order) == CommitWrites(s, e.id, e.next, true, e.c, order, e.reason)
  }

  lemma AcceptedEnding(s: Exec, from_: Exec, id: Id, next: Node, ok: bool, c: Closing, reason: string)
    requires from_.loop == s.loop && !CommitAndClose(from_, id, next, ok, c, reason).loop.failed
    ensures !s.loop.failed && ok && c.Ok()
  {
  }

  lemma SendsEnding(s: Exec, step: Step, order: seq<Id>, e: Ending, from_: Exec, ok: bool)
    requires e.id in s.nodes && LegalCommit(s.nodes[e.id], e.next) && e.next.Terminal() && Enumerates(order, e.c.done)
    requires ClosesBelow(s, e.id, e.next, ok, e.c) && from_.loop == s.loop
    requires !CommitAndClose(from_, e.id, e.next, ok, e.c, e.reason).loop.failed
    requires Sent(s, step, order) == CommitWrites(s, e.id, e.next, ok, e.c, order, e.reason)
    ensures SendsOrEnds(s, step, order)
  {
    hide CommitAndClose, ClosesBelow, CommitWrites, LegalCommit, Sent, Enumerates;
    AcceptedEnding(s, from_, e.id, e.next, ok, e.c, e.reason);
    assert EndsWith(s, e, order);
  }

  lemma LookedUpSends(s: Exec, step: Step, s': Exec, order: seq<Id>)
    requires step.LookedUp? && EarlyNext(s, step, s') && !s'.loop.failed && Enumerates(order, step.c.done)
    ensures SendsOrEnds(s, step, order)
  {
    hide CommitAndClose, ClosesBelow, CommitWrites, Enumerates;
    var id := s.tasks[step.t].node;
    if step.found.Hit? && !Abandons(s, step.t) {
      var next := HitNode(s.nodes[id], step.found);
      assert LegalCommit(s.nodes[id], next) && next.Terminal();
      assert Sent(s, step, order) == CommitWrites(s, id, next, step.ok, step.c, order, "parent action completed");
      hide LegalCommit, HitNode, Sent, SendsOrEnds;
      SendsEnding(s, step, order, Ending(id, next, step.c, "parent action completed"), Exit(s, step.t), step.ok);
    }
  }

  lemma EnsuredSends(s: Exec, step: Step, s': Exec, order: seq<Id>)
    requires step.Ensured? && EarlyNext(s, step, s') && !s'.loop.failed && Enumerates(order, step.c.done)
    ensures SendsOrEnds(s, step, order)
  {
    hide CommitAndClose, ClosesBelow, CommitWrites, Enumerates;
    var id := s.tasks[step.t].node;
    if step.imageFailure.Some? && !Abandons(s, step.t) {
      var next := ImageFailed(s.nodes[id], step.imageFailure.value);
      assert LegalCommit(s.nodes[id], next) && next.Terminal();
      assert Sent(s, step, order) == CommitWrites(s, id, next, step.ok, step.c, order, "parent action failed");
      hide LegalCommit, ImageFailed, Sent, SendsOrEnds;
      SendsEnding(s, step, order, Ending(id, next, step.c, "parent action failed"), Exit(s, step.t), step.ok);
    }
  }

  /** The outcome of an attempt that is not retried. */
  lemma OutcomeEnds(s: Exec, t: TaskId)
    requires Inv(s) && At(s, t, Returned) && AttemptStands(s, t) && !OutcomeOf(s, t).state.Pending?
    ensures LegalCommit(s.nodes[s.tasks[t].node], OutcomeOf(s, t)) && OutcomeOf(s, t).Terminal()
  {
    OwnGoroutine(s, t);
    var id := s.tasks[t].node;
    OutcomeLegal(s.nodes[id], s.tasks[t].output, s.tasks[t].failure, s.book.ledger[id], s.loop.now);
    hide Inv, LegalCommit, AccountOk, Outcome;
  }

  lemma FinishSends(s: Exec, step: Step, s': Exec, order: seq<Id>)
    requires Inv(s) && step.FinishTask? && LateNext(s, step, s') && !s'.loop.failed && Enumerates(order, step.c.done)
    ensures SendsOrEnds(s, step, order)
  {
    hide Inv, CommitAndClose, ClosesBelow, CommitWrites, Enumerates, OutcomeOf, LegalCommit, AttemptStands;
    var id := s.tasks[step.t].node;
    if AttemptStands(s, step.t) && !OutcomeOf(s, step.t).state.Pending? {
      var next := OutcomeOf(s, step.t);
      OutcomeEnds(s, step.t);
      assert Sent(s, step, order) == CommitWrites(s, id, next, step.ok, step.c, order, "parent action completed");
      hide Sent, SendsOrEnds;
      SendsEnding(s, step, order, Ending(id, next, step.c, "parent action completed"), Leave(s, step.t), step.ok);
    }
  }

  lemma FirstIn(order: seq<Id>, ids: set<Id>)
    requires Enumerates(order, ids) && order != []
    ensures order[0] in ids
  {
    assert order[0] in order;
  }

  lemma CancelTreeSends(s: Exec, step: Step, s': Exec, order: seq<Id>)
    requires step.CancelTree? && CloseNext(s, step, s') && !s'.loop.failed && Enumerates(order, step.c.done)
    requires SubtreesClosed(s.nodes) && step.id != NIL
    ensures SendsOrEnds(s, step, order)
  {
    hide CommitAndClose, ClosesBelow, CommitWrites;
    if s.nodes[step.id].Terminal() {
      NothingLiveBelow(s, step.id, step.c);
      if order != [] { FirstIn(order, {}); }
    } else {
      var next := CanceledAction(s.nodes[step.id]);
      assert LegalCommit(s.nodes[step.id], next) && next.Terminal();
      hide LegalCommit, CanceledAction, SendsOrEnds, SubtreesClosed, Enumerates;
      SendsEnding(s, step, order, Ending(step.id, next, step.c, "ancestor canceled"), CancelAttempt(s, step.id), step.ok);
    }
  }

  /** In a closed graph there is nothing to cancel below a terminal node. */
  lemma NothingLiveBelow(s: Exec, id: Id, c: Closing)
    requires SubtreesClosed(s.nodes) && id in s.nodes && s.nodes[id].Terminal() && id != NIL && ClosingPossible(s, CloseSet(s.nodes, id), c)
    ensures c == Closing({}, None)
  {
    ClosedIsNoneOpen(s.nodes);
    assert !Open(s.nodes, id);
  }

  lemma OrderOf(step: Step, order: seq<Id>)
    requires Ordered(step, order) && (step.LookedUp? || step.Ensured? || step.FinishTask? || step.CancelTree?)
    ensures Enumerates(order, step.c.done)
  {
  }

  lemma StepSends(s: Exec, step: Step, s': Exec, order: seq<Id>)
    requires Inv(s) && Next(s, step, s') && !s'.loop.failed && Ordered(step, order) && !step.AddNode?
    requires SubtreesClosed(s.nodes) && NIL !in s.nodes && !step.ReturnByRoot? && !step.CancelAll?
    ensures SendsOrEnds(s, step, order)
  {
    hide Inv, Next, SendsOrEnds, SubtreesClosed, Ordered, Enumerates, Sent, EarlyNext, LateNext, CloseNext;
    if step.LookedUp? || step.Ensured? || step.FinishTask? || step.CancelTree? {
      OrderOf(step, order);
      if step.LookedUp? { EarlyIs(s, step, s'); LookedUpSends(s, step, s', order); }
      else if step.Ensured? { EarlyIs(s, step, s'); EnsuredSends(s, step, s', order); }
      else if step.FinishTask? { LateIs(s, step, s'); FinishSends(s, step, s', order); }
      else { CloseIs(s, step, s'); TreeKnown(s, step, s'); CancelTreeSends(s, step, s', order); }
    } else {
      ShortSends(s, step, order);
    }
  }

  /** Other steps send at most one transition. */
  lemma ShortSends(s: Exec, step: Step, order: seq<Id>)
    requires !step.LookedUp? && !step.Ensured? && !step.FinishTask? && !CloseStep(step)
    ensures SendsOrEnds(s, step, order)
  {
    hide CanWait, CanReclaim;
  }

  lemma TreeKnown(s: Exec, step: Step, s': Exec)
    requires step.CancelTree? && CloseNext(s, step, s')
    ensures step.id in s.nodes
  {
  }

  /** A worker that stops in the middle of a step, after `m` of its transitions, leaves a closed
      graph closed if and only if it had sent none of them or all. What is excepted are the steps
      that cancel every node of the run, and the failure that closes nothing. */
  lemma CutStepExactly(s: Exec, step: Step, s': Exec, order: seq<Id>, m: nat)
    requires Inv(s) && Next(s, step, s') && !s'.loop.failed && Ordered(step, order) && !step.AddNode?
    requires SubtreesClosed(s.nodes) && NIL !in s.nodes && !step.ReturnByRoot? && !step.CancelAll?
    requires (forall p :: !Opens(s, step, p)) && m <= |Sent(s, step, order)|
    ensures SubtreesClosed(After(s.nodes, Sent(s, step, order)[..m])) <==> m == 0 || m == |Sent(s, step, order)|
  {
    StepSends(s, step, s', order);
    hide Inv, Next, Sent, SubtreesClosed, EndsWith, Opens, Ordered, CommitWrites, After;
    if |Sent(s, step, order)| <= 1 {
      AfterStep(s, step, s', order);
      NoneOrAll(s.nodes, Sent(s, step, order));
    } else {
      var e :| EndsWith(s, e, order) && Sent(s, step, order) == CommitWrites(s, e.id, e.next, true, e.c, order, e.reason);
      CutEnding(s, e, order, m);
    }
  }

  lemma NoneOrAll(nodes: Nodes, writes: seq<Write>)
    ensures After(nodes, writes[..0]) == nodes && After(nodes, writes[..|writes|]) == After(nodes, writes)
  {
    assert writes[..0] == [] && writes[..|writes|] == writes;
  }

  lemma CutEnding(s: Exec, e: Ending, order: seq<Id>, m: nat)
    requires EndsWith(s, e, order) && SubtreesClosed(s.nodes) && NIL !in s.nodes
    requires m <= |CommitWrites(s, e.id, e.next, true, e.c, order, e.reason)|
    ensures SubtreesClosed(After(s.nodes, CommitWrites(s, e.id, e.next, true, e.c, order, e.reason)[..m]))
            <==> m == 0 || m == |CommitWrites(s, e.id, e.next, true, e.c, order, e.reason)|
  {
    hide CommitWrites, SubtreesClosed, LegalCommit, ClosesBelow, Enumerates;
    CutCloseExactly(s, e.id, e.next, e.c, order, e.reason, m);
  }

  lemma {:induction false} OrderlyLeadsTo(a: Nodes, writes: seq<Write>, b: Nodes, again: bool)
    requires Orderly(a, writes, b, false, again)
    ensures After(a, writes) == b
    decreases |writes|
  {
    hide Permitted;
    if writes != [] { OrderlyLeadsTo(a[writes[0].id := writes[0].next], writes[1..], b, again); }
  }

  /** A step that opens nothing leads from a closed graph to a closed one. */
  lemma AfterStep(s: Exec, step: Step, s': Exec, order: seq<Id>)
    requires Inv(s) && Next(s, step, s') && !s'.loop.failed && Ordered(step, order) && !step.AddNode?
    requires SubtreesClosed(s.nodes) && forall p :: !Opens(s, step, p)
    ensures After(s.nodes, Sent(s, step, order)) == s'.nodes && SubtreesClosed(s'.nodes)
  {
    hide Inv, Next, Sent, Opens, Ordered, Orderly, Open, SubtreesClosed;
    StepIsExplained(s, step, s', order);
    OrderlyLeadsTo(s.nodes, Sent(s, step, order), s'.nodes, step.DispatchFailAgain?);
    ClosedIsNoneOpen(s.nodes);
    ClosedIsNoneOpen(s'.nodes);
    if p :| Open(s'.nodes, p) { StepOpensExactly(s, step, s', p); }
  }
}
